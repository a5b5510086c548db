/** When the recorded listener hash tells the truth about the server, so that skipping an update on a match
    loses nothing. */
module HashGuard {
  import opened Text
  import opened Endpoints
  import opened Listeners
  import opened ListenerIds
  import opened IdPreservation
  import opened Deletion
  import opened Lifecycle
  import opened NoLeak

  /** The hash is that of a list unlike this content. */
  ghost predicate HashOfOther(c: Ctx, hash: string, content: seq<Listener>) {
    exists l :: c.hash(l) == hash && !Alike(content, l)
  }

  /** Whatever list has the recorded hash is what the named load balancer serves, ids apart. */
  ghost predicate Agrees(c: Ctx, st: State) {
    var id := Ann(st.anns, IdKey);
    && OnRecord(st.server) && (id != "" ==> id in st.server.lbs)
    && (id != "" ==> !HashOfOther(c, Ann(st.anns, HashKey), st.server.lbs[id].listeners))
  }

  ghost predicate Injective(c: Ctx) {
    forall a, b :: c.hash(a) == c.hash(b) ==> a == b
  }

  /** The server serves what it is sent and reconciles updates by id. */
  ghost predicate Honest(o: Oracle) {
    && (forall sent :: Alike(o.assign(sent), sent))
    && (forall current, sent :: Reconciled(current, sent, o.reconcile(current, sent)))
  }

  // ---- What breaks the record ----

  predicate HashLands(o: Oracle) {
    o.hashWrite != Refused
  }

  /** What a creation under this key yields: what a replayed load balancer serves, or the listeners sent. */
  function Content(server: Server, key: string, want: seq<Listener>): seq<Listener> {
    if key in server.byKey && server.byKey[key] in server.lbs then server.lbs[server.byKey[key]].listeners else want
  }

  /** The creation replays a load balancer that serves other listeners, and records the hash of the current ones. */
  ghost predicate StaleReplay(c: Ctx, want: seq<Listener>, st: State, o: Oracle) {
    && Names(c, want, st, o) && o.idWrite == Landed && HashLands(o)
    && !Alike(Content(st.server, NextKey(c, st.anns), want), want)
  }

  /** The name moves without a hash being written, and the old hash is of something else. */
  ghost predicate UnrecordedName(c: Ctx, want: seq<Listener>, st: State, o: Oracle) {
    && Names(c, want, st, o) && !(o.idWrite == Landed && HashLands(o))
    && HashOfOther(c, Ann(st.anns, HashKey), Content(st.server, NextKey(c, st.anns), want))
  }

  /** An update that takes effect without a hash being written, and the old hash is of something else. */
  ghost predicate UnrecordedUpdate(c: Ctx, want: seq<Listener>, st: State, o: Oracle) {
    && Live(st.server, Ann(st.anns, IdKey)) && (o.update == ResponseLost || (o.update == Fine && !HashLands(o)))
    && HashOfOther(c, Ann(st.anns, HashKey), want)
  }

  /** `EnsureLoadBalancer` takes one of its two branches that update. */
  predicate EnsureUpdates(c: Ctx, want: seq<Listener>, st: State, o: Oracle) {
    && !ShouldSkip(c, st.anns) && !c.deleting && Validated(want) && Ann(st.anns, IdKey) != ""
    && o.get != GetError && ConfigChanged(c, st.anns, want)
    && ((o.get.Got? && IsReady(o.get.view)) || Retries(st.retries, c.uid) < MAX_RETRIES)
  }

  predicate HostsUpdate(c: Ctx, want: seq<Listener>, st: State, o: Oracle) {
    Ann(st.anns, IdKey) != "" && Validated(want) && ConfigChanged(c, st.anns, want) && o.get != GetError
  }

  // ---- Creations ----

  lemma CreateStepHash(c: Ctx, snap: Annotations, want: seq<Listener>, st: State, o: Oracle, key: string, count: int)
    ensures var r := CreateStep(c, snap, want, st, o, key, count).st;
            var sent := !(FipEnabled(c, snap) && c.cfg.fipNetworkId == "");
            var written := sent && o.create == Fine && o.idWrite == Landed && HashLands(o);
            Ann(r.anns, HashKey) == if written then c.hash(want) else Ann(st.anns, HashKey)
  {
    var done := Written(c, want, st, o, key, count);
    AwaitIsQuiet(c, snap, done, done, o, [key]);
  }

  lemma CreationListeners(server: Server, key: string, want: seq<Listener>, o: Oracle, id: string)
    requires OnRecord(server) && FreshId(server, o) && Honest(o)
    ensures var s, made := Creation(server, key, want, o), CreatedId(server, key, o);
            && OnRecord(s) && (id in server.lbs ==> id in s.lbs && s.lbs[id].listeners == server.lbs[id].listeners)
            && made in s.lbs && made != "" && Alike(s.lbs[made].listeners, Content(server, key, want))
  {
  }

  lemma AlikeHashes(c: Ctx, hash: string, a: seq<Listener>, b: seq<Listener>)
    requires Alike(a, b)
    ensures HashOfOther(c, hash, a) <==> HashOfOther(c, hash, b)
  {
    if l :| c.hash(l) == hash && !Alike(a, l) {
      assert !Alike(b, l);
    }
    if l :| c.hash(l) == hash && !Alike(b, l) {
      assert !Alike(a, l);
    }
  }

  lemma OwnHash(c: Ctx, want: seq<Listener>, content: seq<Listener>)
    requires Injective(c)
    ensures HashOfOther(c, c.hash(want), content) <==> !Alike(content, want)
  {
  }

  lemma SameRecordAgrees(c: Ctx, st: State, after: State)
    requires Agrees(c, st) && OnRecord(after.server)
    requires Ann(after.anns, IdKey) == Ann(st.anns, IdKey) && Ann(after.anns, HashKey) == Ann(st.anns, HashKey)
    requires var id := Ann(st.anns, IdKey);
             id in st.server.lbs ==>
               id in after.server.lbs && after.server.lbs[id].listeners == st.server.lbs[id].listeners
    ensures Agrees(c, after)
  {
  }

  /** Right after a creation that named, the hash now recorded decides. */
  lemma CreateAgrees(c: Ctx, want: seq<Listener>, st: State, o: Oracle, count: int)
    requires Agrees(c, st) && Injective(c) && Honest(o) && FreshId(st.server, o)
    requires MIN_INT64 <= count <= MAX_INT64 && !(FipEnabled(c, st.anns) && c.cfg.fipNetworkId == "")
    ensures var key := NextKey(c, st.anns);
            var content := Content(st.server, key, want);
            Agrees(c, CreateStep(c, st.anns, want, st, o, key, count).st) <==>
              (o.create == Fine && o.idWrite != Refused ==>
                 if o.idWrite == Landed && HashLands(o) then Alike(content, want)
                 else !HashOfOther(c, Ann(st.anns, HashKey), content))
  {
    var key := NextKey(c, st.anns);
    var after := CreateStep(c, st.anns, want, st, o, key, count).st;
    CreateStepAnns(c, st.anns, want, st, o, key, count);
    CreateStepHash(c, st.anns, want, st, o, key, count);
    CreationListeners(st.server, key, want, o, Ann(st.anns, IdKey));
    if o.create == Fine && o.idWrite != Refused {
      var served, content := after.server.lbs[CreatedId(st.server, key, o)].listeners, Content(st.server, key, want);
      AlikeHashes(c, Ann(after.anns, HashKey), served, content);
      OwnHash(c, want, content);
    } else {
      SameRecordAgrees(c, st, after);
    }
  }

  lemma RemovalListeners(server: Server, id: string, reply: DeleteReply, x: string)
    ensures x in Removal(server, id, reply).lbs <==> x in server.lbs
    ensures x in server.lbs ==> Removal(server, id, reply).lbs[x].listeners == server.lbs[x].listeners
  {
  }

  lemma RemovalAgrees(c: Ctx, st: State, id: string, reply: DeleteReply)
    requires Agrees(c, st)
    ensures Agrees(c, st.(server := Removal(st.server, id, reply)))
  {
    RemovalIsQuiet(st, id, reply);
    RemovalListeners(st.server, id, reply, Ann(st.anns, IdKey));
  }

  lemma RemovalContent(server: Server, id: string, reply: DeleteReply, key: string, want: seq<Listener>)
    ensures Content(Removal(server, id, reply), key, want) == Content(server, key, want)
  {
    if key in server.byKey {
      RemovalListeners(server, id, reply, server.byKey[key]);
    }
  }

  lemma RecreateAgrees(c: Ctx, want: seq<Listener>, st: State, o: Oracle)
    requires Agrees(c, st) && Injective(c) && Honest(o) && FreshId(st.server, o) && Recreating(c, want, st, o)
    ensures Agrees(c, RecreateStep(c, st.anns, want, st, o).st)
            <==> !StaleReplay(c, want, st, o) && !UnrecordedName(c, want, st, o)
  {
    var id, key := Ann(st.anns, IdKey), NextKey(c, st.anns);
    var gone := st.(server := Removal(st.server, id, o.delete));
    RemovalAgrees(c, st, id, o.delete);
    RemovalListeners(st.server, id, o.delete, o.newId);
    RemovalContent(st.server, id, o.delete, key, want);
    CountInRange(st.anns);
    assert RecreateStep(c, st.anns, want, st, o) == CreateStep(c, gone.anns, want, gone, o, key, Count(st.anns) + 1);
    CreateAgrees(c, want, gone, o, Count(st.anns) + 1);
  }

  // ---- Updates ----

  /** Where an update sync stands before it waits. */
  function Recorded(c: Ctx, want: seq<Listener>, st: State, o: Oracle): State {
    var sent := UpdateSent(st, Ann(st.anns, IdKey), want, o);
    if o.update == Fine && Live(st.server, Ann(st.anns, IdKey)) then Wrote(sent, HashKey, c.hash(want), o.hashWrite)
    else sent
  }

  lemma UpdateServes(want: seq<Listener>, st: State, o: Oracle)
    requires Honest(o) && o.update != RequestLost && Live(st.server, Ann(st.anns, IdKey))
    ensures var sent, id := UpdateSent(st, Ann(st.anns, IdKey), want, o), Ann(st.anns, IdKey);
            && Live(sent.server, id) && Alike(sent.server.lbs[id].listeners, want)
            && (OnRecord(st.server) ==> OnRecord(sent.server))
  {
    var id := Ann(st.anns, IdKey);
    var current, merged := Held(st.server, id), Merge(want, Seen(st.server, id, o));
    assert Reconciled(current, merged, o.reconcile(current, merged));
    MergeKeepsContent(want, Seen(st.server, id, o));
  }

  lemma RecordedAgrees(c: Ctx, want: seq<Listener>, st: State, o: Oracle)
    requires Agrees(c, st) && Injective(c) && Honest(o) && Ann(st.anns, IdKey) != ""
    ensures Agrees(c, Recorded(c, want, st, o)) <==> !UnrecordedUpdate(c, want, st, o)
  {
    var id, done := Ann(st.anns, IdKey), Recorded(c, want, st, o);
    if o.update != RequestLost && Live(st.server, id) {
      UpdateServes(want, st, o);
      AlikeHashes(c, Ann(done.anns, HashKey), done.server.lbs[id].listeners, want);
      OwnHash(c, want, want);
    }
  }

  lemma AwaitAgrees(c: Ctx, snap: Annotations, failed: State, ready: State, o: Oracle, creates: seq<string>)
    requires failed.anns == ready.anns && failed.server == ready.server
    ensures Agrees(c, Await(c, snap, failed, ready, o, creates).st) <==> Agrees(c, ready)
  {
    AwaitIsQuiet(c, snap, failed, ready, o, creates);
  }

  lemma ReadyAgrees(c: Ctx, want: seq<Listener>, st: State, o: Oracle, view: View)
    requires Agrees(c, st) && Injective(c) && Honest(o) && Ann(st.anns, IdKey) != ""
    ensures Agrees(c, ReadyStep(c, st.anns, want, st, o, view).st)
            <==> !(ConfigChanged(c, st.anns, want) && UnrecordedUpdate(c, want, st, o))
  {
    RecordedAgrees(c, want, st, o);
    var done := Recorded(c, want, st, o);
    AwaitAgrees(c, st.anns, done, done, o, []);
    AwaitAgrees(c, st.anns, st, st, o, []);
  }

  lemma WaitingAgrees(c: Ctx, want: seq<Listener>, st: State, o: Oracle)
    requires Agrees(c, st) && Injective(c) && Honest(o) && Ann(st.anns, IdKey) != ""
    requires Retries(st.retries, c.uid) < MAX_RETRIES
    ensures Agrees(c, NotReadyStep(c, st.anns, want, st, o).st)
            <==> !(ConfigChanged(c, st.anns, want) && UnrecordedUpdate(c, want, st, o))
  {
    RecordedAgrees(c, want, st, o);
    var done := Recorded(c, want, st, o);
    AwaitAgrees(c, st.anns, Incremented(done, c.uid), Cleared(done, c.uid), o, []);
  }

  /** A host update keeps the record true exactly when it does not take effect unrecorded. */
  lemma UpdateAgrees(c: Ctx, want: seq<Listener>, st: State, o: Oracle)
    requires Agrees(c, st) && Injective(c) && Honest(o)
    ensures Agrees(c, UpdateStep(c, st.anns, want, st, o).st)
            <==> !(HostsUpdate(c, want, st, o) && UnrecordedUpdate(c, want, st, o))
  {
    if Ann(st.anns, IdKey) != "" {
      RecordedAgrees(c, want, st, o);
    }
  }

  lemma DeleteAgrees(c: Ctx, st: State, o: Oracle)
    requires Agrees(c, st)
    ensures Agrees(c, DeleteStep(c, st.anns, st, o).st)
  {
    var id := Ann(st.anns, IdKey);
    var target := if id != "" then Some(id) else FindByName(o.pages, c.lbName);
    if target.Some? {
      RemovalAgrees(c, st, target.value, o.delete);
    }
  }

  /** The three ways in which a sync can leave a hash that lies. */
  ghost predicate EnsureLies(c: Ctx, want: seq<Listener>, st: State, o: Oracle) {
    || StaleReplay(c, want, st, o) || UnrecordedName(c, want, st, o)
    || (EnsureUpdates(c, want, st, o) && UnrecordedUpdate(c, want, st, o))
  }

  /** Whatever is lost: a sync keeps the record true exactly when it neither records the current hash over a replayed
      creation with other listeners nor moves the name or updates without recording. */
  lemma EnsureAgrees(c: Ctx, want: seq<Listener>, st: State, o: Oracle)
    requires Agrees(c, st) && Injective(c) && Honest(o) && FreshId(st.server, o)
    ensures Agrees(c, EnsureStep(c, st.anns, want, st, o).st) <==> !EnsureLies(c, want, st, o)
  {
    if ShouldSkip(c, st.anns) {
    } else if c.deleting {
      DeleteAgrees(c, st, o);
    } else if !Validated(want) {
    } else if Ann(st.anns, IdKey) == "" {
      if !(FipEnabled(c, st.anns) && c.cfg.fipNetworkId == "") {
        CreateAgrees(c, want, st, o, 1);
      }
    } else if Recreating(c, want, st, o) {
      RecreateAgrees(c, want, st, o);
    } else if o.get == GetError {
    } else if o.get.Got? && IsReady(o.get.view) {
      ReadyAgrees(c, want, st, o, o.get.view);
    } else if Retries(st.retries, c.uid) < MAX_RETRIES {
      WaitingAgrees(c, want, st, o);
    }
  }

  // ---- Whole runs ----

  /** The event records what it does. */
  ghost predicate Trustworthy(c: Ctx, st: State, e: Event) {
    match e
    case Ensure(_, _, want, o) => Honest(o) && !EnsureLies(CtxOf(c, e), want, st, o)
    case UpdateHosts(_, want, o) =>
      Honest(o) && !(HostsUpdate(CtxOf(c, e), want, st, o) && UnrecordedUpdate(CtxOf(c, e), want, st, o))
    case Annotate(key, _) => key != HashKey
    case EnsureDeleted(_, _) => true
    case Restart => true
    case Vanish(_) => true
  }

  lemma NextAgrees(c: Ctx, st: State, e: Event)
    requires Agrees(c, st) && Injective(c) && FreshFor(st, e) && Trustworthy(c, st, e)
    ensures Agrees(c, Next(c, st, e))
  {
    match e
    case Ensure(cfg, deleting, want, o) =>
      var d := c.(cfg := cfg, deleting := deleting);
      assert Injective(d) && Agrees(d, st);
      EnsureAgrees(d, want, st, o);
    case UpdateHosts(cfg, want, o) =>
      var d := c.(cfg := cfg);
      assert Injective(d) && Agrees(d, st);
      UpdateAgrees(d, want, st, o);
    case EnsureDeleted(cfg, o) => DeleteAgrees(c.(cfg := cfg), st, o);
    case Vanish(id) => RemovalAgrees(c, st, id, Accepted);
    case Restart =>
    case Annotate(key, value) => SameRecordAgrees(c, st, Next(c, st, e));
  }

  lemma {:induction false} AlwaysAgrees(c: Ctx, states: seq<State>, events: seq<Event>, i: nat)
    requires Run(c, states, events) && i <= |events| && Injective(c)
    requires states[0].server == Server(map[], map[]) && Ann(states[0].anns, IdKey) == ""
    requires forall j :: 0 <= j < i ==> Trustworthy(c, states[j], events[j])
    ensures Agrees(c, states[i])
  {
    if i > 0 {
      AlwaysAgrees(c, states, events, i - 1);
      NextAgrees(c, states[i - 1], events[i - 1]);
    }
  }

  // ---- The server's listeners along a run ----

  /** Asked for distinct ports and protocols, the server keeps them apart and gives each listener an id of its own. */
  ghost predicate Orderly(o: Oracle) {
    && (forall sent :: UniqueKeys(sent) ==> WellKept(o.assign(sent)))
    && (forall current, sent :: WellKept(current) && UniqueKeys(sent) && SentOnce(sent) ==>
          WellKept(o.reconcile(current, sent)))
  }

  /** What the controller builds for a Service no two of whose ports share a listener key. */
  ghost predicate Distinct(want: seq<Listener>) {
    NoIds(want) && UniqueKeys(want)
  }

  ghost predicate AllWellKept(server: Server) {
    forall id :: id in server.lbs ==> WellKept(server.lbs[id].listeners)
  }

  ghost predicate Tidy(e: Event) {
    match e
    case Ensure(_, _, want, o) => Distinct(want) && Orderly(o)
    case UpdateHosts(_, want, o) => Distinct(want) && Orderly(o)
    case _ => true
  }

  lemma CreationWellKept(server: Server, key: string, want: seq<Listener>, o: Oracle)
    requires AllWellKept(server) && Distinct(want) && Orderly(o)
    ensures AllWellKept(Creation(server, key, want, o))
  {
  }

  lemma RemovalWellKept(server: Server, id: string, reply: DeleteReply)
    requires AllWellKept(server)
    ensures AllWellKept(Removal(server, id, reply))
  {
  }

  lemma ReplacedWellKept(server: Server, id: string, got: seq<Listener>)
    requires AllWellKept(server) && WellKept(got)
    ensures AllWellKept(server.(lbs := server.lbs[id := LbRecord(true, got)]))
  {
  }

  lemma UpdatedWellKept(server: Server, id: string, sent: seq<Listener>, o: Oracle)
    requires AllWellKept(server) && UniqueKeys(sent) && SentOnce(sent) && Orderly(o)
    ensures AllWellKept(Updated(server, id, sent, o))
  {
    if o.update != RequestLost && Live(server, id) {
      var got := o.reconcile(server.lbs[id].listeners, sent);
      assert WellKept(got);
      ReplacedWellKept(server, id, got);
    }
  }

  lemma SeenWellKept(server: Server, id: string, o: Oracle)
    requires AllWellKept(server)
    ensures WellKept(Seen(server, id, o))
  {
  }

  lemma SentWellKept(want: seq<Listener>, st: State, id: string, o: Oracle)
    requires AllWellKept(st.server) && Distinct(want) && Orderly(o)
    ensures AllWellKept(UpdateSent(st, id, want, o).server)
  {
    SeenWellKept(st.server, id, o);
    MergeSendsOnce(want, Seen(st.server, id, o));
    UpdatedWellKept(st.server, id, Merge(want, Seen(st.server, id, o)), o);
  }

  lemma CreateWellKept(c: Ctx, want: seq<Listener>, st: State, o: Oracle, key: string, count: int)
    requires AllWellKept(st.server) && Distinct(want) && Orderly(o) && MIN_INT64 <= count <= MAX_INT64
    ensures AllWellKept(CreateStep(c, st.anns, want, st, o, key, count).st.server)
  {
    CreateStepAnns(c, st.anns, want, st, o, key, count);
    CreationWellKept(st.server, key, want, o);
  }

  lemma ReadyWellKept(c: Ctx, want: seq<Listener>, st: State, o: Oracle, view: View)
    requires AllWellKept(st.server) && AllWellKept(UpdateSent(st, Ann(st.anns, IdKey), want, o).server)
    ensures AllWellKept(ReadyStep(c, st.anns, want, st, o, view).st.server)
  {
    var done := Recorded(c, want, st, o);
    AwaitIsQuiet(c, st.anns, done, done, o, []);
    AwaitIsQuiet(c, st.anns, st, st, o, []);
  }

  lemma WaitingWellKept(c: Ctx, want: seq<Listener>, st: State, o: Oracle)
    requires AllWellKept(st.server) && AllWellKept(UpdateSent(st, Ann(st.anns, IdKey), want, o).server)
    requires Retries(st.retries, c.uid) < MAX_RETRIES
    ensures AllWellKept(NotReadyStep(c, st.anns, want, st, o).st.server)
  {
    var done := Recorded(c, want, st, o);
    AwaitIsQuiet(c, st.anns, Incremented(done, c.uid), Cleared(done, c.uid), o, []);
  }

  lemma UpdateWellKept(c: Ctx, want: seq<Listener>, st: State, o: Oracle)
    requires AllWellKept(st.server) && AllWellKept(UpdateSent(st, Ann(st.anns, IdKey), want, o).server)
    ensures AllWellKept(UpdateStep(c, st.anns, want, st, o).st.server)
  {
    var r := UpdateStep(c, st.anns, want, st, o).st.server;
    assert r == st.server || r == UpdateSent(st, Ann(st.anns, IdKey), want, o).server;
  }

  lemma RecreateServer(c: Ctx, want: seq<Listener>, st: State, o: Oracle)
    requires Recreating(c, want, st, o)
    ensures var r, gone := RecreateStep(c, st.anns, want, st, o).st, Removal(st.server, Ann(st.anns, IdKey), o.delete);
            r.server == if o.create == RequestLost then gone else Creation(gone, NextKey(c, st.anns), want, o)
  {
    var gone := st.(server := Removal(st.server, Ann(st.anns, IdKey), o.delete));
    CountInRange(st.anns);
    CreateStepAnns(c, st.anns, want, gone, o, NextKey(c, st.anns), Count(st.anns) + 1);
  }

  lemma RecreateWellKept(c: Ctx, want: seq<Listener>, st: State, o: Oracle)
    requires AllWellKept(st.server) && Distinct(want) && Orderly(o) && Recreating(c, want, st, o)
    ensures AllWellKept(RecreateStep(c, st.anns, want, st, o).st.server)
  {
    RecreateServer(c, want, st, o);
    RemovalWellKept(st.server, Ann(st.anns, IdKey), o.delete);
    CreationWellKept(Removal(st.server, Ann(st.anns, IdKey), o.delete), NextKey(c, st.anns), want, o);
  }

  lemma EnsureWellKept(c: Ctx, want: seq<Listener>, st: State, o: Oracle)
    requires AllWellKept(st.server) && Distinct(want) && Orderly(o)
    ensures AllWellKept(EnsureStep(c, st.anns, want, st, o).st.server)
  {
    SentWellKept(want, st, Ann(st.anns, IdKey), o);
    if ShouldSkip(c, st.anns) {
    } else if c.deleting {
      DeleteWellKept(c, st, o);
    } else if !Validated(want) {
    } else if Ann(st.anns, IdKey) == "" {
      CreateWellKept(c, want, st, o, NextKey(c, st.anns), 1);
    } else if Recreating(c, want, st, o) {
      RecreateWellKept(c, want, st, o);
    } else if o.get == GetError {
    } else if o.get.Got? && IsReady(o.get.view) {
      ReadyWellKept(c, want, st, o, o.get.view);
    } else if Retries(st.retries, c.uid) < MAX_RETRIES {
      WaitingWellKept(c, want, st, o);
    }
  }

  lemma DeleteWellKept(c: Ctx, st: State, o: Oracle)
    requires AllWellKept(st.server)
    ensures AllWellKept(DeleteStep(c, st.anns, st, o).st.server)
  {
    var id := Ann(st.anns, IdKey);
    var target := if id != "" then Some(id) else FindByName(o.pages, c.lbName);
    if target.Some? {
      RemovalWellKept(st.server, target.value, o.delete);
    }
  }

  lemma NextWellKept(c: Ctx, st: State, e: Event)
    requires AllWellKept(st.server) && Tidy(e)
    ensures AllWellKept(Next(c, st, e).server)
  {
    match e
    case Ensure(_, _, want, o) => EnsureWellKept(CtxOf(c, e), want, st, o);
    case UpdateHosts(_, want, o) =>
      SentWellKept(want, st, Ann(st.anns, IdKey), o);
      UpdateWellKept(CtxOf(c, e), want, st, o);
    case EnsureDeleted(_, o) => DeleteWellKept(CtxOf(c, e), st, o);
    case Vanish(id) => RemovalWellKept(st.server, id, Accepted);
    case Restart =>
    case Annotate(_, _) =>
  }

  lemma {:induction false} AlwaysWellKept(c: Ctx, states: seq<State>, events: seq<Event>, i: nat)
    requires Run(c, states, events) && i <= |events| && states[0].server == Server(map[], map[])
    requires forall j :: 0 <= j < i ==> Tidy(events[j])
    ensures AllWellKept(states[i].server)
  {
    if i > 0 {
      AlwaysWellKept(c, states, events, i - 1);
      NextWellKept(c, states[i - 1], events[i - 1]);
    }
  }

  // ---- The guard ----

  lemma SkippedUpdateIsNoOp(c: Ctx, st: State, want: seq<Listener>, o: Oracle)
    requires Agrees(c, st) && !ConfigChanged(c, st.anns, want) && AllSingle(want) && Honest(o) && o.get.Got?
    requires Live(st.server, Ann(st.anns, IdKey)) && WellKept(Held(st.server, Ann(st.anns, IdKey)))
    ensures UpdateSent(st, Ann(st.anns, IdKey), want, o) == st
  {
    var id := Ann(st.anns, IdKey);
    var current := st.server.lbs[id].listeners;
    var got := o.reconcile(current, Merge(want, current));
    assert Reconciled(current, Merge(want, current), got);
    assert Alike(current, want);
    AlikeIsSingle(current, want);
    UnchangedUpdateIsNoOp(want, current, got);
    assert st.server.lbs[id := LbRecord(true, current)] == st.server.lbs;
  }

  /** In every state of such a run, sending the update the guard skips would leave the server as it is, ids included. */
  lemma GuardLosesNothing(c: Ctx, states: seq<State>, events: seq<Event>, i: nat, want: seq<Listener>, o: Oracle)
    requires Run(c, states, events) && i <= |events| && Injective(c)
    requires states[0].server == Server(map[], map[]) && Ann(states[0].anns, IdKey) == ""
    requires forall j :: 0 <= j < i ==> Trustworthy(c, states[j], events[j]) && Tidy(events[j])
    requires !ConfigChanged(c, states[i].anns, want) && AllSingle(want)
    requires Live(states[i].server, Ann(states[i].anns, IdKey)) && Honest(o) && o.get.Got?
    ensures UpdateSent(states[i], Ann(states[i].anns, IdKey), want, o) == states[i]
  {
    AlwaysAgrees(c, states, events, i);
    AlwaysWellKept(c, states, events, i);
    SkippedUpdateIsNoOp(c, states[i], want, o);
  }

  /** In particular for what the controller builds, whatever the Service. */
  lemma GuardLosesNothingBuilt(c: Ctx, states: seq<State>, events: seq<Event>, i: nat, inp: Inputs, usable: Usable,
                               o: Oracle)
    requires Run(c, states, events) && i <= |events| && Injective(c) && states[0] == UNSEEN
    requires forall j :: 0 <= j < i ==> Trustworthy(c, states[j], events[j]) && Tidy(events[j])
    requires !ConfigChanged(c, states[i].anns, ListenersOf(inp, usable))
    requires Live(states[i].server, Ann(states[i].anns, IdKey)) && Honest(o) && o.get.Got?
    ensures UpdateSent(states[i], Ann(states[i].anns, IdKey), ListenersOf(inp, usable), o) == states[i]
  {
    BuiltShape(inp, usable);
    GuardLosesNothing(c, states, events, i, ListenersOf(inp, usable), o);
  }

  lemma AlikeIsSingle(a: seq<Listener>, b: seq<Listener>)
    requires Alike(a, b) && AllSingle(b)
    ensures AllSingle(a) && Alike(b, a)
  {
    forall i | 0 <= i < |a| ensures SingleBackend(a[i]) {
      assert Erase(a[i]) == Erase(b[i]);
      assert |Erase(a[i]).rules| == |Erase(b[i]).rules| == 1;
      assert |Erase(a[i]).rules[0].backends| == |Erase(b[i]).rules[0].backends|;
    }
  }

  // ---- What a lie costs ----

  /** After an unrecorded update the old list still has the recorded hash, so a sync back to it sends no update,
      although the server serves the new one: in `UpdateLoadBalancer` ... */
  lemma UnrecordedUpdateLies(c: Ctx, want: seq<Listener>, before: seq<Listener>, st: State, o: Oracle)
    requires Agrees(c, st) && Honest(o) && c.hash(before) == Ann(st.anns, HashKey) && !Alike(want, before)
    requires HostsUpdate(c, want, st, o) && UnrecordedUpdate(c, want, st, o)
    ensures var after := UpdateStep(c, st.anns, want, st, o).st;
            && !Agrees(c, after) && !ConfigChanged(c, after.anns, before)
            && Alike(Held(after.server, Ann(after.anns, IdKey)), want)
  {
    UpdateServes(want, st, o);
    var after := UpdateStep(c, st.anns, want, st, o).st;
    AlikeHashes(c, Ann(st.anns, HashKey), after.server.lbs[Ann(st.anns, IdKey)].listeners, want);
  }

  /** ... and in both branches of `EnsureLoadBalancer` that update. */
  lemma UnrecordedEnsureLies(c: Ctx, want: seq<Listener>, before: seq<Listener>, st: State, o: Oracle)
    requires Agrees(c, st) && Honest(o) && c.hash(before) == Ann(st.anns, HashKey) && !Alike(want, before)
    requires EnsureUpdates(c, want, st, o) && UnrecordedUpdate(c, want, st, o)
    ensures var after := EnsureStep(c, st.anns, want, st, o).st;
            && !Agrees(c, after) && !ConfigChanged(c, after.anns, before)
            && Alike(Held(after.server, Ann(after.anns, IdKey)), want)
  {
    var done := Recorded(c, want, st, o);
    UpdateServes(want, st, o);
    AlikeHashes(c, Ann(st.anns, HashKey), done.server.lbs[Ann(st.anns, IdKey)].listeners, want);
    AwaitIsQuiet(c, st.anns, done, done, o, []);
    AwaitIsQuiet(c, st.anns, Incremented(done, c.uid), Cleared(done, c.uid), o, []);
  }

  /** After a stale replay the desired list has the recorded hash, so it is never sent, although another one is
      served. */
  lemma StaleReplayLies(c: Ctx, want: seq<Listener>, st: State, o: Oracle)
    requires OnRecord(st.server) && Honest(o) && FreshId(st.server, o) && StaleReplay(c, want, st, o)
    ensures var after := EnsureStep(c, st.anns, want, st, o).st;
            && !Agrees(c, after) && !ConfigChanged(c, after.anns, want)
            && Alike(Held(after.server, Ann(after.anns, IdKey)), Content(st.server, NextKey(c, st.anns), want))
  {
    CreationNames(c, want, st, o);
    var after, content := EnsureStep(c, st.anns, want, st, o).st, Content(st.server, NextKey(c, st.anns), want);
    AlikeHashes(c, c.hash(want), Held(after.server, Ann(after.anns, IdKey)), content);
  }

  /** After the name moved unrecorded the old list has the recorded hash, although another one is served. */
  lemma UnrecordedNameLies(c: Ctx, want: seq<Listener>, before: seq<Listener>, st: State, o: Oracle)
    requires OnRecord(st.server) && Honest(o) && FreshId(st.server, o) && c.hash(before) == Ann(st.anns, HashKey)
    requires UnrecordedName(c, want, st, o) && !Alike(Content(st.server, NextKey(c, st.anns), want), before)
    ensures var after := EnsureStep(c, st.anns, want, st, o).st;
            && !Agrees(c, after) && !ConfigChanged(c, after.anns, before)
            && Alike(Held(after.server, Ann(after.anns, IdKey)), Content(st.server, NextKey(c, st.anns), want))
  {
    CreationNames(c, want, st, o);
    var after, content := EnsureStep(c, st.anns, want, st, o).st, Content(st.server, NextKey(c, st.anns), want);
    AlikeHashes(c, Ann(st.anns, HashKey), Held(after.server, Ann(after.anns, IdKey)), content);
  }

  /** Which load balancer and which hash are on record once a creation has named. */
  lemma CreationNames(c: Ctx, want: seq<Listener>, st: State, o: Oracle)
    requires OnRecord(st.server) && Honest(o) && FreshId(st.server, o) && Names(c, want, st, o)
    ensures var after, key := EnsureStep(c, st.anns, want, st, o).st, NextKey(c, st.anns);
            var id := Ann(after.anns, IdKey);
            && id != "" && id in after.server.lbs && OnRecord(after.server)
            && Alike(after.server.lbs[id].listeners, Content(st.server, key, want))
            && Ann(after.anns, HashKey)
                 == if o.idWrite == Landed && HashLands(o) then c.hash(want) else Ann(st.anns, HashKey)
  {
    var key := NextKey(c, st.anns);
    CountInRange(st.anns);
    if FirstCreating(c, want, st) {
      CreateStepAnns(c, st.anns, want, st, o, key, 1);
      CreateStepHash(c, st.anns, want, st, o, key, 1);
      CreationListeners(st.server, key, want, o, "");
    } else {
      var gone := st.(server := Removal(st.server, Ann(st.anns, IdKey), o.delete));
      RemovalIsQuiet(st, Ann(st.anns, IdKey), o.delete);
      RemovalListeners(st.server, Ann(st.anns, IdKey), o.delete, o.newId);
      RemovalContent(st.server, Ann(st.anns, IdKey), o.delete, key, want);
      assert EnsureStep(c, st.anns, want, st, o) == CreateStep(c, gone.anns, want, gone, o, key, Count(st.anns) + 1);
      CreateStepAnns(c, st.anns, want, gone, o, key, Count(st.anns) + 1);
      CreateStepHash(c, st.anns, want, gone, o, key, Count(st.anns) + 1);
      CreationListeners(gone.server, key, want, o, "");
    }
  }

  // ---- They happen: from a Service nobody has seen yet ----

  const UNSEEN := State(map[], map[], Server(map[], map[]))

  ghost predicate CanServe(c: Ctx, a: seq<Listener>, b: seq<Listener>) {
    !c.cfg.onlyServiceController && c.cfg.fipNetworkId != "" && !c.deleting && Validated(a) && Validated(b)
  }

  /** A creation whose response is lost, then other listeners: the second sync replays the first one's load balancer. */
  lemma StaleReplayHappens(c: Ctx, a: seq<Listener>, b: seq<Listener>, o: Oracle)
    returns (first: Oracle, second: Oracle)
    requires CanServe(c, a, b) && Honest(o) && !Alike(a, b)
    ensures Honest(first) && Honest(second) && first.create == ResponseLost && FreshId(UNSEEN.server, first)
    ensures second.create == Fine && second.idWrite == second.countWrite == second.hashWrite == Landed
    ensures var st := EnsureStep(c, UNSEEN.anns, a, UNSEEN, first).st;
            var after := EnsureStep(c, st.anns, b, st, second).st;
            && FreshId(st.server, second) && Agrees(c, st) && StaleReplay(c, b, st, second)
            && !Agrees(c, after) && !ConfigChanged(c, after.anns, b)
            && Alike(Held(after.server, Ann(after.anns, IdKey)), a)
  {
    first := o.(create := ResponseLost, newId := "a");
    second := o.(create := Fine, newId := "b", idWrite := Landed, countWrite := Landed, hashWrite := Landed);
    var st := EnsureStep(c, UNSEEN.anns, a, UNSEEN, first).st;
    assert st.server == Creation(UNSEEN.server, c.uid, a, first);
    CreationListeners(UNSEEN.server, c.uid, a, first, "");
    var content := Content(st.server, NextKey(c, st.anns), b);
    assert Alike(content, a);
    StaleReplayLies(c, b, st, second);
  }

  /** Ten syncs in which the load balancer is not ready and nothing has changed only count. */
  function Waited(c: Ctx, st: State, n: nat): State {
    if n == 0 then st else Incremented(Waited(c, st, n - 1), c.uid)
  }

  lemma {:induction false} WaitedLooks(c: Ctx, st: State, n: nat)
    requires Retries(st.retries, c.uid) == 0
    ensures Waited(c, st, n).anns == st.anns && Waited(c, st, n).server == st.server
    ensures Retries(Waited(c, st, n).retries, c.uid) == n
  {
    if n > 0 {
      WaitedLooks(c, st, n - 1);
    }
  }

  /** The state after a first creation of which everything landed. */
  lemma FirstCreation(c: Ctx, a: seq<Listener>, o: Oracle)
    requires CanServe(c, a, a) && Honest(o) && FreshId(UNSEEN.server, o)
    requires o.create == Fine && o.idWrite == o.countWrite == o.hashWrite == Landed
    ensures var st := EnsureStep(c, UNSEEN.anns, a, UNSEEN, o).st;
            && Ann(st.anns, IdKey) == o.newId && Ann(st.anns, HashKey) == c.hash(a) && Count(st.anns) == 1
            && Retries(st.retries, c.uid) == 0 && OnRecord(st.server)
            && st.server.byKey.Keys == {c.uid} && st.server.lbs.Keys == {o.newId}
            && Ann(st.anns, IpTypeKey) == "" && !ShouldSkip(c, st.anns)
  {
    CreateStepAnns(c, UNSEEN.anns, a, UNSEEN, o, c.uid, 1);
    CreateStepHash(c, UNSEEN.anns, a, UNSEEN, o, c.uid, 1);
  }

  lemma WaitOnce(c: Ctx, a: seq<Listener>, st: State, o: Oracle)
    requires CanServe(c, a, a) && o.get == GotNothing && Ann(st.anns, IdKey) != "" && !ConfigChanged(c, st.anns, a)
    requires Retries(st.retries, c.uid) < MAX_RETRIES
    ensures EnsureStep(c, st.anns, a, st, o).st == Incremented(st, c.uid)
  {
  }

  /** A creation and then ten syncs that only wait. */
  function Waiting(c: Ctx, a: seq<Listener>, first: Oracle, wait: Oracle): (run: (seq<State>, seq<Event>))
    ensures |run.0| == 12 && |run.1| == 11
  {
    var st := EnsureStep(c, UNSEEN.anns, a, UNSEEN, first).st;
    ([UNSEEN] + seq(11, k requires 0 <= k < 11 => Waited(c, st, k)),
     [Ensure(c.cfg, false, a, first)] + seq(10, k requires 0 <= k < 10 => Ensure(c.cfg, false, a, wait)))
  }

  lemma WaitingRuns(c: Ctx, a: seq<Listener>, first: Oracle, wait: Oracle)
    requires CanServe(c, a, a) && Honest(first) && FreshId(UNSEEN.server, first)
    requires first.create == Fine && first.idWrite == first.countWrite == first.hashWrite == Landed
    requires wait.get == GotNothing && wait.newId != "" && wait.newId != first.newId && Honest(wait)
    ensures var events := Waiting(c, a, first, wait).1;
            forall j :: 0 <= j < 11 ==> events[j].Ensure? && Honest(events[j].o)
    ensures Run(c, Waiting(c, a, first, wait).0, Waiting(c, a, first, wait).1)
  {
    var st := EnsureStep(c, UNSEEN.anns, a, UNSEEN, first).st;
    var (states, events) := Waiting(c, a, first, wait);
    FirstCreation(c, a, first);
    forall j | 0 <= j < 11 ensures FreshFor(states[j], events[j]) && states[j + 1] == Next(c, states[j], events[j]) {
      if j > 0 {
        WaitedLooks(c, st, j - 1);
        WaitOnce(c, a, Waited(c, st, j - 1), wait);
      }
    }
  }

  /** What the recreation after the waiting finds. */
  ghost predicate ReadyToMove(c: Ctx, a: seq<Listener>, st: State, newId: string) {
    && OnRecord(st.server) && newId !in st.server.lbs && Ann(st.anns, IdKey) != "" && Count(st.anns) == 1
    && Ann(st.anns, HashKey) == c.hash(a) && Retries(st.retries, c.uid) == MAX_RETRIES
    && c.derive(c.uid, Itoa(2)) !in st.server.byKey
  }

  lemma WaitingIsReady(c: Ctx, a: seq<Listener>, first: Oracle, wait: Oracle, newId: string)
    requires CanServe(c, a, a) && Honest(first) && FreshId(UNSEEN.server, first) && newId != first.newId
    requires first.create == Fine && first.idWrite == first.countWrite == first.hashWrite == Landed
    requires c.derive(c.uid, Itoa(2)) != c.uid
    ensures ReadyToMove(c, a, Waiting(c, a, first, wait).0[11], newId)
  {
    FirstCreation(c, a, first);
    WaitedLooks(c, EnsureStep(c, UNSEEN.anns, a, UNSEEN, first).st, 10);
  }

  lemma RunExtends(c: Ctx, states: seq<State>, events: seq<Event>, e: Event)
    returns (states': seq<State>, events': seq<Event>)
    requires Run(c, states, events) && FreshFor(states[|events|], e)
    ensures Run(c, states', events') && |events'| == |events| + 1
    ensures forall j :: 0 <= j <= |events| ==> states'[j] == states[j]
    ensures forall j :: 0 <= j < |events| ==> events'[j] == events[j]
    ensures states'[|events| + 1] == Next(c, states[|events|], e) && events'[|events|] == e
  {
    states', events' := states + [Next(c, states[|events|], e)], events + [e];
  }

  lemma MovesUnrecorded(c: Ctx, a: seq<Listener>, b: seq<Listener>, st: State, last: Oracle)
    requires CanServe(c, a, b) && Honest(last) && !Alike(b, a) && last.newId != "" && ReadyToMove(c, a, st, last.newId)
    requires last.get == GotNothing && last.create == Fine && last.idWrite == LandedUnheard
    ensures var after := EnsureStep(c, st.anns, b, st, last).st;
            && UnrecordedName(c, b, st, last) && !Agrees(c, after) && !ConfigChanged(c, after.anns, a)
            && Alike(Held(after.server, Ann(after.anns, IdKey)), b)
  {
    assert Recreating(c, b, st, last);
    assert Content(st.server, NextKey(c, st.anns), b) == b;
    UnrecordedNameLies(c, b, a, st, last);
  }

  lemma ThenMoves(c: Ctx, a: seq<Listener>, b: seq<Listener>, first: Oracle, wait: Oracle, last: Oracle)
    returns (states: seq<State>, events: seq<Event>)
    requires CanServe(c, a, b) && Honest(first) && Honest(wait) && Honest(last) && !Alike(b, a)
    requires FreshId(UNSEEN.server, first) && c.derive(c.uid, Itoa(2)) != c.uid
    requires first.create == Fine && first.idWrite == first.countWrite == first.hashWrite == Landed
    requires wait.get == GotNothing && wait.newId == last.newId != "" && wait.newId != first.newId
    requires last.get == GotNothing && last.create == Fine && last.idWrite == LandedUnheard
    ensures |events| == 12 && Run(c, states, events) && states[0] == UNSEEN
    ensures forall j :: 0 <= j < 12 ==> events[j].Ensure? && Honest(events[j].o)
    ensures events[11] == Ensure(c.cfg, false, b, last) && UnrecordedName(c, b, states[11], last)
    ensures !Agrees(c, states[12]) && !ConfigChanged(c, states[12].anns, a)
    ensures Alike(Held(states[12].server, Ann(states[12].anns, IdKey)), b)
  {
    var (before, past) := Waiting(c, a, first, wait);
    var e := Ensure(c.cfg, false, b, last);
    WaitingRuns(c, a, first, wait);
    WaitingIsReady(c, a, first, wait, last.newId);
    MovesUnrecorded(c, a, b, before[11], last);
    assert CtxOf(c, e) == c;
    states, events := RunExtends(c, before, past, e);
  }

  /** A creation, ten syncs without the load balancer getting ready, then a recreation with other listeners whose id
      write lands unheard: the name has moved, and the hash is still that of the first listeners. */
  lemma UnrecordedNameHappens(c: Ctx, a: seq<Listener>, b: seq<Listener>, o: Oracle)
    returns (states: seq<State>, events: seq<Event>)
    requires CanServe(c, a, b) && Honest(o) && !Alike(b, a) && c.derive(c.uid, Itoa(2)) != c.uid
    ensures |events| == 12 && Run(c, states, events) && states[0] == UNSEEN
    ensures forall j :: 0 <= j < 12 ==> events[j].Ensure? && Honest(events[j].o)
    ensures events[11].want == b && UnrecordedName(c, b, states[11], events[11].o)
    ensures !Agrees(c, states[12]) && !ConfigChanged(c, states[12].anns, a)
    ensures Alike(Held(states[12].server, Ann(states[12].anns, IdKey)), b)
  {
    var first := o.(create := Fine, newId := "a", idWrite := Landed, countWrite := Landed, hashWrite := Landed);
    var wait := o.(get := GotNothing, newId := "b");
    states, events := ThenMoves(c, a, b, first, wait, wait.(create := Fine, idWrite := LandedUnheard));
  }
}
