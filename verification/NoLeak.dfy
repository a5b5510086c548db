/** At most one load balancer of a service is live, and it is always one the controller will find again. */
module NoLeak {
  import opened Text
  import opened Endpoints
  import opened Listeners
  import opened Deletion
  import opened Lifecycle

  /** The idempotency key the next creation will send. */
  function NextKey(c: Ctx, anns: Annotations): string {
    KeyFor(c, if Ann(anns, IdKey) == "" then Count(anns) else Count(anns) + 1)
  }

  ghost predicate Replays(server: Server, key: string, id: string) {
    key in server.byKey && server.byKey[key] == id
  }

  ghost predicate OnRecord(server: Server) {
    (forall k :: k in server.byKey ==> server.byKey[k] in server.lbs) && "" !in server.lbs
  }

  /** Every live load balancer satisfies `where`, and there are no two. */
  ghost predicate AtMostOne(server: Server) {
    forall x, y :: Live(server, x) && Live(server, y) ==> x == y
  }

  /** Nothing leaked: a live load balancer is the named one or the one the next creation would replay. */
  ghost predicate Tight(c: Ctx, st: State) {
    && OnRecord(st.server) && AtMostOne(st.server)
    && forall x :: Live(st.server, x) ==> x == Ann(st.anns, IdKey) || Replays(st.server, NextKey(c, st.anns), x)
  }

  // ---- One sync ----

  /** The sync takes the recreate branch and sends its requests. */
  predicate Recreating(c: Ctx, want: seq<Listener>, st: State, o: Oracle) {
    && !ShouldSkip(c, st.anns) && !c.deleting && Validated(want) && Ann(st.anns, IdKey) != ""
    && o.get != GetError && !(o.get.Got? && IsReady(o.get.view))
    && Retries(st.retries, c.uid) >= MAX_RETRIES && Count(st.anns) < MAX_CREATES
    && !(FipEnabled(c, st.anns) && c.cfg.fipNetworkId == "")
  }

  /** The named load balancer survives its deletion, whose error nobody looks at, and stops being named: either a
      second one is created beside it, or the creation replays another one and the name moves there for good. */
  ghost predicate Orphans(c: Ctx, want: seq<Listener>, st: State, o: Oracle) {
    var id, count, key := Ann(st.anns, IdKey), Count(st.anns), NextKey(c, st.anns);
    && Recreating(c, want, st, o) && Live(st.server, id) && !TookEffect(o.delete) && o.create != RequestLost
    && (key !in st.server.byKey
        || (st.server.byKey[key] != id && o.create == Fine && o.idWrite != Refused
            && !(o.idWrite == Landed && o.countWrite != Refused && Replays(st.server, KeyFor(c, count + 2), id))))
  }

  lemma CountOfItoa(anns: Annotations, n: int)
    requires MIN_INT64 <= n <= MAX_INT64 && Ann(anns, CountKey) == Itoa(n)
    ensures Count(anns) == n
  {
    AtoiOfItoa(n);
  }

  /** Neither waiting nor publishing touches what the invariants speak of. */
  lemma AwaitIsQuiet(c: Ctx, snap: Annotations, failed: State, ready: State, o: Oracle, creates: seq<string>)
    requires failed.anns == ready.anns && failed.server == ready.server
    ensures var r := Await(c, snap, failed, ready, o, creates).st;
            && r.server == ready.server && Ann(r.anns, IdKey) == Ann(ready.anns, IdKey)
            && Ann(r.anns, CountKey) == Ann(ready.anns, CountKey) && Ann(r.anns, HashKey) == Ann(ready.anns, HashKey)
  {
  }

  /** What a creation leaves in the two durable annotations the invariant speaks of. */
  lemma CreateStepAnns(c: Ctx, snap: Annotations, want: seq<Listener>, st: State, o: Oracle, key: string, count: int)
    requires MIN_INT64 <= count <= MAX_INT64
    ensures var r := CreateStep(c, snap, want, st, o, key, count).st;
            var sent := !(FipEnabled(c, snap) && c.cfg.fipNetworkId == "");
            var named := sent && o.create == Fine && o.idWrite != Refused;
            && r.server == (if sent && o.create != RequestLost then Creation(st.server, key, want, o) else st.server)
            && Ann(r.anns, IdKey) == (if named then CreatedId(st.server, key, o) else Ann(st.anns, IdKey))
            && Count(r.anns)
                 == (if named && o.idWrite == Landed && o.countWrite != Refused then count else Count(st.anns))
  {
    var r := CreateStep(c, snap, want, st, o, key, count).st;
    var done := Written(c, want, st, o, key, count);
    AwaitIsQuiet(c, snap, done, done, o, [key]);
    if Ann(r.anns, CountKey) == Itoa(count) {
      CountOfItoa(r.anns, count);
    }
  }

  lemma CreationLives(server: Server, key: string, want: seq<Listener>, o: Oracle, x: string)
    requires OnRecord(server) && FreshId(server, o)
    ensures OnRecord(Creation(server, key, want, o))
    ensures Live(Creation(server, key, want, o), x) <==> Live(server, x) || (key !in server.byKey && x == o.newId)
    ensures Replays(Creation(server, key, want, o), key, CreatedId(server, key, o))
  {
  }

  /** A creation is safe when whatever is live is what its key would replay. */
  lemma CreateKeepsTight(c: Ctx, want: seq<Listener>, st: State, o: Oracle, count: int)
    requires OnRecord(st.server) && AtMostOne(st.server) && FreshId(st.server, o) && MIN_INT64 <= count <= MAX_INT64
    requires forall x :: Live(st.server, x) ==> Replays(st.server, NextKey(c, st.anns), x)
    ensures Tight(c, CreateStep(c, st.anns, want, st, o, NextKey(c, st.anns), count).st)
  {
    var key := NextKey(c, st.anns);
    CreateStepAnns(c, st.anns, want, st, o, key, count);
    forall x
      ensures Live(Creation(st.server, key, want, o), x)
              <==> Live(st.server, x) || (key !in st.server.byKey && x == o.newId)
    {
      CreationLives(st.server, key, want, o, x);
    }
    CreationLives(st.server, key, want, o, "");
  }

  lemma RemovalLives(server: Server, id: string, reply: DeleteReply, x: string)
    ensures Live(Removal(server, id, reply), x) <==> Live(server, x) && !(TookEffect(reply) && x == id)
    ensures OnRecord(server) ==> OnRecord(Removal(server, id, reply))
    ensures Removal(server, id, reply).byKey == server.byKey
  {
  }

  lemma RemovalKeepsAtMostOne(server: Server, id: string, reply: DeleteReply)
    requires OnRecord(server) && AtMostOne(server)
    ensures OnRecord(Removal(server, id, reply)) && AtMostOne(Removal(server, id, reply))
  {
    forall x ensures Live(Removal(server, id, reply), x) ==> Live(server, x) {
      RemovalLives(server, id, reply, x);
    }
  }

  lemma RecreateKeepsTight(c: Ctx, want: seq<Listener>, st: State, o: Oracle)
    requires Tight(c, st) && FreshId(st.server, o) && Recreating(c, want, st, o)
    requires TookEffect(o.delete) || !Live(st.server, Ann(st.anns, IdKey))
    ensures Tight(c, RecreateStep(c, st.anns, want, st, o).st)
  {
    var id := Ann(st.anns, IdKey);
    var gone := st.(server := Removal(st.server, id, o.delete));
    RemovalKeepsAtMostOne(st.server, id, o.delete);
    forall x | Live(gone.server, x) ensures Replays(gone.server, NextKey(c, st.anns), x) {
      RemovalLives(st.server, id, o.delete, x);
    }
    CountInRange(st.anns);
    CreateKeepsTight(c, want, gone, o, Count(st.anns) + 1);
  }

  lemma CountInRange(anns: Annotations)
    ensures MIN_INT64 <= Count(anns) <= MAX_INT64
  {
  }

  /** Beside a surviving named load balancer a fresh key makes a second one. */
  lemma SecondIsCreated(c: Ctx, want: seq<Listener>, st: State, o: Oracle, count: int)
    requires OnRecord(st.server) && FreshId(st.server, o) && Live(st.server, Ann(st.anns, IdKey))
    requires !(FipEnabled(c, st.anns) && c.cfg.fipNetworkId == "") && o.create != RequestLost
    requires NextKey(c, st.anns) !in st.server.byKey && MIN_INT64 <= count <= MAX_INT64
    ensures !AtMostOne(CreateStep(c, st.anns, want, st, o, NextKey(c, st.anns), count).st.server)
  {
    var id, key := Ann(st.anns, IdKey), NextKey(c, st.anns);
    CreateStepAnns(c, st.anns, want, st, o, key, count);
    CreationLives(st.server, key, want, o, id);
    CreationLives(st.server, key, want, o, o.newId);
    assert id != o.newId;
  }

  lemma SurvivorOrphaned(c: Ctx, want: seq<Listener>, st: State, o: Oracle)
    requires Tight(c, st) && FreshId(st.server, o) && Recreating(c, want, st, o)
    requires !TookEffect(o.delete) && Live(st.server, Ann(st.anns, IdKey))
    ensures Tight(c, RecreateStep(c, st.anns, want, st, o).st) <==> !Orphans(c, want, st, o)
  {
    var id, count, key := Ann(st.anns, IdKey), Count(st.anns), NextKey(c, st.anns);
    assert Removal(st.server, id, o.delete) == st.server;
    CountInRange(st.anns);
    if o.create != RequestLost && key !in st.server.byKey {
      SecondIsCreated(c, want, st, o, count + 1);
    } else {
      CreateStepAnns(c, st.anns, want, st, o, key, count + 1);
      NameMoves(c, st, RecreateStep(c, st.anns, want, st, o).st);
    }
  }

  /** With the server unchanged and the named one live, all depends on where name and next key point. */
  lemma NameMoves(c: Ctx, st: State, after: State)
    requires Tight(c, st) && Live(st.server, Ann(st.anns, IdKey)) && after.server == st.server
    ensures Tight(c, after) <==>
              || Ann(after.anns, IdKey) == Ann(st.anns, IdKey)
              || Replays(st.server, NextKey(c, after.anns), Ann(st.anns, IdKey))
  {
  }

  /** No creation and nothing brought back: the durable id, the count and the keys stay, what is live can only go. */
  ghost predicate Quiet(st: State, after: State) {
    && OnRecord(after.server) && after.server.byKey == st.server.byKey
    && (forall x :: Live(after.server, x) ==> Live(st.server, x))
    && Ann(after.anns, IdKey) == Ann(st.anns, IdKey) && Ann(after.anns, CountKey) == Ann(st.anns, CountKey)
  }

  lemma QuietKeepsTight(c: Ctx, st: State, after: State)
    requires Tight(c, st) && Quiet(st, after)
    ensures Tight(c, after)
  {
  }

  lemma SendingIsQuiet(c: Ctx, want: seq<Listener>, st: State, o: Oracle)
    requires OnRecord(st.server)
    ensures Quiet(st, UpdateSent(st, Ann(st.anns, IdKey), want, o))
  {
  }

  lemma ReadyIsQuiet(c: Ctx, want: seq<Listener>, st: State, o: Oracle, view: View)
    requires OnRecord(st.server)
    ensures Quiet(st, ReadyStep(c, st.anns, want, st, o, view).st)
  {
    SendingIsQuiet(c, want, st, o);
    var done := Wrote(UpdateSent(st, Ann(st.anns, IdKey), want, o), HashKey, c.hash(want), o.hashWrite);
    AwaitIsQuiet(c, st.anns, done, done, o, []);
    AwaitIsQuiet(c, st.anns, st, st, o, []);
  }

  lemma WaitingIsQuiet(c: Ctx, want: seq<Listener>, st: State, o: Oracle)
    requires OnRecord(st.server) && Retries(st.retries, c.uid) < MAX_RETRIES
    ensures Quiet(st, NotReadyStep(c, st.anns, want, st, o).st)
  {
    SendingIsQuiet(c, want, st, o);
    var done := Wrote(UpdateSent(st, Ann(st.anns, IdKey), want, o), HashKey, c.hash(want), o.hashWrite);
    AwaitIsQuiet(c, st.anns, Incremented(done, c.uid), Cleared(done, c.uid), o, []);
  }

  lemma UpdateIsQuiet(c: Ctx, want: seq<Listener>, st: State, o: Oracle)
    requires OnRecord(st.server)
    ensures Quiet(st, UpdateStep(c, st.anns, want, st, o).st)
  {
    SendingIsQuiet(c, want, st, o);
  }

  lemma RemovalIsQuiet(st: State, id: string, reply: DeleteReply)
    requires OnRecord(st.server)
    ensures Quiet(st, st.(server := Removal(st.server, id, reply)))
  {
    forall x ensures Live(Removal(st.server, id, reply), x) ==> Live(st.server, x) {
      RemovalLives(st.server, id, reply, x);
    }
    RemovalLives(st.server, id, reply, "");
  }

  lemma DeleteIsQuiet(c: Ctx, st: State, o: Oracle)
    requires OnRecord(st.server)
    ensures Quiet(st, DeleteStep(c, st.anns, st, o).st)
  {
    var id := Ann(st.anns, IdKey);
    var target := if id != "" then Some(id) else FindByName(o.pages, c.lbName);
    if target.Some? {
      RemovalIsQuiet(st, target.value, o.delete);
    }
  }

  predicate FirstCreating(c: Ctx, want: seq<Listener>, st: State) {
    !ShouldSkip(c, st.anns) && !c.deleting && Validated(want) && Ann(st.anns, IdKey) == ""
  }

  /** The sync sends a creation. */
  predicate Creates(c: Ctx, want: seq<Listener>, st: State, o: Oracle) {
    (FirstCreating(c, want, st) && !(FipEnabled(c, st.anns) && c.cfg.fipNetworkId == "")) || Recreating(c, want, st, o)
  }

  /** The sync writes the durable id, heard or unheard. */
  predicate Names(c: Ctx, want: seq<Listener>, st: State, o: Oracle) {
    Creates(c, want, st, o) && o.create == Fine && o.idWrite != Refused
  }

  lemma EnsureIsQuiet(c: Ctx, want: seq<Listener>, st: State, o: Oracle)
    requires OnRecord(st.server) && !FirstCreating(c, want, st) && !Recreating(c, want, st, o)
    ensures Quiet(st, EnsureStep(c, st.anns, want, st, o).st)
  {
    if c.deleting {
      DeleteIsQuiet(c, st, o);
    } else if o.get.Got? && IsReady(o.get.view) {
      ReadyIsQuiet(c, want, st, o, o.get.view);
    } else if Retries(st.retries, c.uid) < MAX_RETRIES {
      WaitingIsQuiet(c, want, st, o);
    }
  }

  /** One sync keeps the invariant exactly when it does not orphan the named load balancer. */
  lemma EnsureKeepsTight(c: Ctx, want: seq<Listener>, st: State, o: Oracle)
    requires Tight(c, st) && FreshId(st.server, o)
    ensures Tight(c, EnsureStep(c, st.anns, want, st, o).st) <==> !Orphans(c, want, st, o)
  {
    if FirstCreating(c, want, st) {
      CreateKeepsTight(c, want, st, o, 1);
    } else if !Recreating(c, want, st, o) {
      EnsureIsQuiet(c, want, st, o);
      QuietKeepsTight(c, st, EnsureStep(c, st.anns, want, st, o).st);
    } else if TookEffect(o.delete) || !Live(st.server, Ann(st.anns, IdKey)) {
      RecreateKeepsTight(c, want, st, o);
    } else {
      SurvivorOrphaned(c, want, st, o);
    }
  }

  // ---- Whole runs ----

  /** What can happen next. `Annotate` is anybody writing other annotations, `Vanish` a load balancer going
      away by itself. */
  datatype Event =
    | Ensure(cfg: Config, deleting: bool, want: seq<Listener>, o: Oracle)
    | UpdateHosts(cfg: Config, want: seq<Listener>, o: Oracle)
    | EnsureDeleted(cfg: Config, o: Oracle)
    | Restart
    | Annotate(key: AnnKey, value: string)
    | Vanish(id: string)

  /** The context an event's sync runs in. */
  function CtxOf(c: Ctx, e: Event): Ctx {
    match e
    case Ensure(cfg, deleting, _, _) => c.(cfg := cfg, deleting := deleting)
    case UpdateHosts(cfg, _, _) => c.(cfg := cfg)
    case EnsureDeleted(cfg, _) => c.(cfg := cfg)
    case _ => c
  }

  function Next(c: Ctx, st: State, e: Event): State {
    match e
    case Ensure(cfg, deleting, want, o) => EnsureStep(c.(cfg := cfg, deleting := deleting), st.anns, want, st, o).st
    case UpdateHosts(cfg, want, o) => UpdateStep(c.(cfg := cfg), st.anns, want, st, o).st
    case EnsureDeleted(cfg, o) => DeleteStep(c.(cfg := cfg), st.anns, st, o).st
    case Restart => st.(retries := map[])
    case Annotate(key, value) => if key == IdKey || key == CountKey then st else st.(anns := st.anns[key := value])
    case Vanish(id) => st.(server := Removal(st.server, id, Accepted))
  }

  ghost predicate FreshFor(st: State, e: Event) {
    e.Ensure? ==> FreshId(st.server, e.o)
  }

  /** The one thing that must not happen during a run. */
  ghost predicate Leaks(c: Ctx, st: State, e: Event) {
    e.Ensure? && Orphans(CtxOf(c, e), e.want, st, e.o)
  }

  lemma OthersAreQuiet(c: Ctx, st: State, e: Event)
    requires OnRecord(st.server) && !e.Ensure?
    ensures Quiet(st, Next(c, st, e))
  {
    match e
    case UpdateHosts(cfg, want, o) => UpdateIsQuiet(c.(cfg := cfg), want, st, o);
    case EnsureDeleted(cfg, o) => DeleteIsQuiet(c.(cfg := cfg), st, o);
    case Vanish(id) => RemovalIsQuiet(st, id, Accepted);
    case Restart =>
    case Annotate(key, value) =>
  }

  lemma NextKeepsTight(c: Ctx, st: State, e: Event)
    requires Tight(c, st) && FreshFor(st, e)
    ensures Tight(c, Next(c, st, e)) <==> !Leaks(c, st, e)
  {
    if e.Ensure? {
      var d := c.(cfg := e.cfg, deleting := e.deleting);
      SameKeys(c, d, st);
      EnsureKeepsTight(d, e.want, st, e.o);
      SameKeys(c, d, Next(c, st, e));
    } else {
      OthersAreQuiet(c, st, e);
      QuietKeepsTight(c, st, Next(c, st, e));
    }
  }

  lemma SameKeys(c: Ctx, d: Ctx, st: State)
    requires d == c.(cfg := d.cfg, deleting := d.deleting)
    ensures Tight(c, st) <==> Tight(d, st)
  {
    assert NextKey(c, st.anns) == NextKey(d, st.anns);
  }

  ghost predicate Run(c: Ctx, states: seq<State>, events: seq<Event>) {
    && |states| == |events| + 1
    && forall i :: 0 <= i < |events| ==>
         FreshFor(states[i], events[i]) && states[i + 1] == Next(c, states[i], events[i])
  }

  /** From a service nobody has seen yet, through any lost requests, responses and writes and any restarts: as long as
      no sync orphans, at most one load balancer is live and the controller still knows the way to it. */
  lemma {:induction false} NothingLeaks(c: Ctx, states: seq<State>, events: seq<Event>, i: nat, x: string, y: string)
    requires Run(c, states, events) && i <= |events|
    requires states[0].server == Server(map[], map[])
    requires forall j :: 0 <= j < i ==> !Leaks(c, states[j], events[j])
    ensures Tight(c, states[i])
    ensures Live(states[i].server, x) ==>
              (x == Ann(states[i].anns, IdKey) || Replays(states[i].server, NextKey(c, states[i].anns), x))
              && (Live(states[i].server, y) ==> x == y)
  {
    if i > 0 {
      NothingLeaks(c, states, events, i - 1, x, y);
      NextKeepsTight(c, states[i - 1], events[i - 1]);
    }
  }

  // ---- What the hypotheses exclude ----

  function SomeListener(): Listener {
    var backend := Backend("", "default", 1, [BackendRef("10.0.0.1", 30080)]);
    Listener("", 80, TCP, false, [Rule("", [], [backend], RoundRobin, None)])
  }

  /** The ignored deletion error leaks: a reachable-looking state and one sync after which two are live. */
  lemma IgnoredDeletionErrorLeaks(c: Ctx, o: Oracle) returns (st: State, o': Oracle)
    requires !c.cfg.onlyServiceController && !c.deleting && c.cfg.fipNetworkId != ""
    requires c.derive(c.uid, Itoa(2)) != c.uid
    ensures Tight(c, st) && FreshId(st.server, o') && o'.create == Fine && o'.idWrite == Landed && o'.delete == Lost
    ensures var after := EnsureStep(c, st.anns, [SomeListener()], st, o').st;
            exists x, y :: x != y && Live(after.server, x) && Live(after.server, y)
  {
    var anns: Annotations := map[IdKey := "a", CountKey := Itoa(1)];
    st := State(anns, map[c.uid := 10], Server(map[c.uid := "a"], map["a" := LbRecord(true, [])]));
    o' := o.(get := GotNothing, create := Fine, newId := "b", delete := Lost, idWrite := Landed);
    CountOfItoa(anns, 1);
    var after := EnsureStep(c, st.anns, [SomeListener()], st, o').st;
    assert Recreating(c, [SomeListener()], st, o');
    CreateStepAnns(c, anns, [SomeListener()], st, o', NextKey(c, anns), 2);
    assert Live(after.server, "a") && Live(after.server, "b");
  }
}
