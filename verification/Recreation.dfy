/** When recreating really yields another load balancer, and what is left behind once the Service is deleted. */
module Recreation {
  import opened Text
  import opened Listeners
  import opened Deletion
  import opened Lifecycle
  import opened NoLeak

  /** Name-based UUIDs in the space of this uid are told apart by the name, and none of them is the uid itself. */
  ghost predicate DerivesApart(c: Ctx) {
    && (forall a, b :: c.derive(c.uid, a) == c.derive(c.uid, b) ==> a == b)
    && forall a :: c.derive(c.uid, a) != c.uid
  }

  /** Then no two attempts share a key. */
  lemma KeysDiffer(c: Ctx, m: nat, n: nat)
    requires DerivesApart(c)
    ensures KeyFor(c, m) == KeyFor(c, n) <==> m == n
    ensures KeyFor(c, m) == c.uid <==> m == 0
  {
    if m > 0 && n > 0 && KeyFor(c, m) == KeyFor(c, n) {
      assert c.derive(c.uid, Itoa(m)) == c.derive(c.uid, Itoa(n));
      ItoaInjective(m, n);
    }
  }

  /** No two keys share a load balancer. */
  ghost predicate KeysApart(server: Server) {
    forall k, l :: k in server.byKey && l in server.byKey && server.byKey[k] == server.byKey[l] ==> k == l
  }

  /** The named load balancer came from the key of this attempt, and keys do not share load balancers. */
  ghost predicate NamedBy(c: Ctx, st: State, lost: bool) {
    && OnRecord(st.server) && Count(st.anns) >= 0
    && KeysApart(st.server)
    && (Ann(st.anns, IdKey) == "" ==> Count(st.anns) == 0)
    && (Ann(st.anns, IdKey) != "" ==>
          if lost then Replays(st.server, KeyFor(c, Count(st.anns) + 1), Ann(st.anns, IdKey))
          else FromKeyUpTo(c, st.server, Count(st.anns), Ann(st.anns, IdKey)))
  }

  ghost predicate FromKeyUpTo(c: Ctx, server: Server, n: int, id: string) {
    exists j: nat :: j <= n && Replays(server, KeyFor(c, j), id)
  }

  /** The count is written along with the id. */
  predicate CountLands(o: Oracle) {
    o.idWrite == Landed && o.countWrite != Refused
  }

  lemma NamedByGrows(c: Ctx, st: State, after: State, lost: bool)
    requires NamedBy(c, st, lost) && OnRecord(after.server)
    requires forall k :: k in st.server.byKey ==> k in after.server.byKey && after.server.byKey[k] == st.server.byKey[k]
    requires KeysApart(after.server)
    requires Ann(after.anns, IdKey) == Ann(st.anns, IdKey) && Count(after.anns) == Count(st.anns)
    ensures NamedBy(c, after, lost)
  {
    if Ann(st.anns, IdKey) != "" && !lost {
      var j: nat :| j <= Count(st.anns) && Replays(st.server, KeyFor(c, j), Ann(st.anns, IdKey));
      assert Replays(after.server, KeyFor(c, j), Ann(st.anns, IdKey));
    }
  }

  lemma CreationKeys(server: Server, key: string, want: seq<Listener>, o: Oracle)
    requires OnRecord(server) && FreshId(server, o)
    requires KeysApart(server)
    ensures var s := Creation(server, key, want, o);
            && (forall k :: k in server.byKey ==> k in s.byKey && s.byKey[k] == server.byKey[k])
            && KeysApart(s)
  {
  }

  /** A creation that names: attempt 0 for the first one, the next attempt for a recreation. */
  lemma CreateNames(c: Ctx, want: seq<Listener>, st: State, o: Oracle, attempt: nat, count: nat, lost: bool)
    requires NamedBy(c, st, lost) && FreshId(st.server, o) && count <= MAX_INT64
    requires if Ann(st.anns, IdKey) == "" then attempt == 0 && count == 1 else attempt == count == Count(st.anns) + 1
    requires !(FipEnabled(c, st.anns) && c.cfg.fipNetworkId == "")
    ensures var named := o.create == Fine && o.idWrite != Refused;
            NamedBy(c, CreateStep(c, st.anns, want, st, o, KeyFor(c, attempt), count).st,
                    if named then Ann(st.anns, IdKey) != "" && !CountLands(o) else lost)
  {
    var key := KeyFor(c, attempt);
    CreateStepAnns(c, st.anns, want, st, o, key, count);
    CreationLives(st.server, key, want, o, "");
    CreationKeys(st.server, key, want, o);
    var after := CreateStep(c, st.anns, want, st, o, key, count).st;
    if o.create == Fine && o.idWrite != Refused {
      assert Replays(after.server, KeyFor(c, attempt), Ann(after.anns, IdKey));
    } else {
      NamedByGrows(c, st, after, lost);
    }
  }

  lemma RecreateNames(c: Ctx, want: seq<Listener>, st: State, o: Oracle, lost: bool)
    requires NamedBy(c, st, lost) && FreshId(st.server, o) && Recreating(c, want, st, o)
    ensures NamedBy(c, RecreateStep(c, st.anns, want, st, o).st, if Names(c, want, st, o) then !CountLands(o) else lost)
  {
    var gone := st.(server := Removal(st.server, Ann(st.anns, IdKey), o.delete));
    RemovalIsQuiet(st, Ann(st.anns, IdKey), o.delete);
    NamedByGrows(c, st, gone, lost);
    CreateNames(c, want, gone, o, Count(st.anns) + 1, Count(st.anns) + 1, lost);
  }

  /** A sync that names after deleting loses the count unless it lands; any other keeps what was known. */
  function LosesCount(c: Ctx, want: seq<Listener>, st: State, o: Oracle, lost: bool): bool {
    if Names(c, want, st, o) then Recreating(c, want, st, o) && !CountLands(o) else lost
  }

  lemma EnsureNames(c: Ctx, want: seq<Listener>, st: State, o: Oracle, lost: bool)
    requires NamedBy(c, st, lost) && FreshId(st.server, o)
    ensures NamedBy(c, EnsureStep(c, st.anns, want, st, o).st, LosesCount(c, want, st, o, lost))
  {
    if Recreating(c, want, st, o) {
      RecreateNames(c, want, st, o, lost);
    } else if !FirstCreating(c, want, st) {
      EnsureIsQuiet(c, want, st, o);
      NamedByGrows(c, st, EnsureStep(c, st.anns, want, st, o).st, lost);
    } else if !(FipEnabled(c, st.anns) && c.cfg.fipNetworkId == "") {
      CreateNames(c, want, st, o, 0, 1, lost);
    }
  }

  /** The last sync that wrote the durable id was a recreation, and its count write did not land. */
  function CountLost(c: Ctx, states: seq<State>, events: seq<Event>, i: nat): bool
    requires |states| == |events| + 1 && i <= |events|
  {
    if i == 0 then false
    else
      var lost, e := CountLost(c, states, events, i - 1), events[i - 1];
      if e.Ensure? then LosesCount(CtxOf(c, e), e.want, states[i - 1], e.o, lost) else lost
  }

  lemma SameNames(c: Ctx, d: Ctx, st: State, lost: bool)
    requires d == c.(cfg := d.cfg, deleting := d.deleting) && NamedBy(c, st, lost)
    ensures NamedBy(d, st, lost)
  {
    if Ann(st.anns, IdKey) != "" && !lost {
      var j: nat :| j <= Count(st.anns) && Replays(st.server, KeyFor(c, j), Ann(st.anns, IdKey));
      assert Replays(st.server, KeyFor(d, j), Ann(st.anns, IdKey));
    }
  }

  lemma {:induction false} AlwaysNamedBy(c: Ctx, states: seq<State>, events: seq<Event>, i: nat)
    requires Run(c, states, events) && i <= |events|
    requires states[0].server == Server(map[], map[]) && Ann(states[0].anns, IdKey) == "" && Count(states[0].anns) == 0
    ensures NamedBy(c, states[i], CountLost(c, states, events, i))
  {
    if i > 0 {
      AlwaysNamedBy(c, states, events, i - 1);
      var st, e, lost := states[i - 1], events[i - 1], CountLost(c, states, events, i - 1);
      if e.Ensure? {
        var d := CtxOf(c, e);
        SameNames(c, d, st, lost);
        EnsureNames(d, e.want, st, e.o, lost);
        SameNames(d, c, Next(c, st, e), CountLost(c, states, events, i));
      } else {
        OthersAreQuiet(c, st, e);
        NamedByGrows(c, st, Next(c, st, e), lost);
      }
    }
  }

  lemma ReplaysIfLost(c: Ctx, st: State, o: Oracle, lost: bool)
    requires NamedBy(c, st, lost) && DerivesApart(c) && FreshId(st.server, o) && Ann(st.anns, IdKey) != ""
    ensures CreatedId(st.server, NextKey(c, st.anns), o) == Ann(st.anns, IdKey) <==> lost
  {
    if !lost {
      var j: nat :| j <= Count(st.anns) && Replays(st.server, KeyFor(c, j), Ann(st.anns, IdKey));
      KeysDiffer(c, j, Count(st.anns) + 1);
    }
  }

  /** With distinct keys, whatever was lost on the way: the next creation gets the named load balancer back exactly
      when the sync that last named it was a recreation whose count write did not land. */
  lemma WhenRecreationReplays(c: Ctx, states: seq<State>, events: seq<Event>, i: nat, o: Oracle)
    requires Run(c, states, events) && i <= |events| && DerivesApart(c)
    requires states[0].server == Server(map[], map[]) && Ann(states[0].anns, IdKey) == "" && Count(states[0].anns) == 0
    requires Ann(states[i].anns, IdKey) != "" && FreshId(states[i].server, o)
    ensures CreatedId(states[i].server, NextKey(c, states[i].anns), o) == Ann(states[i].anns, IdKey)
            <==> CountLost(c, states, events, i)
  {
    AlwaysNamedBy(c, states, events, i);
    ReplaysIfLost(c, states[i], o, CountLost(c, states, events, i));
  }

  /** A recreation that writes the id but not the count. */
  predicate DropsCount(c: Ctx, st: State, e: Event)
    requires e.Ensure?
  {
    Recreating(c, e.want, st, e.o) && Names(c, e.want, st, e.o) && !CountLands(e.o)
  }

  lemma {:induction false} CountNeverLost(c: Ctx, states: seq<State>, events: seq<Event>, i: nat)
    requires Run(c, states, events) && i <= |events|
    requires forall j :: 0 <= j < i && events[j].Ensure? ==> !DropsCount(CtxOf(c, events[j]), states[j], events[j])
    ensures !CountLost(c, states, events, i)
  {
    if i > 0 {
      CountNeverLost(c, states, events, i - 1);
    }
  }

  /** So when recreations that name also write the count, a recreation never gets back what it just deleted. */
  lemma RecreationIsAnother(c: Ctx, states: seq<State>, events: seq<Event>, i: nat, o: Oracle)
    requires Run(c, states, events) && i <= |events| && DerivesApart(c)
    requires states[0].server == Server(map[], map[]) && Ann(states[0].anns, IdKey) == "" && Count(states[0].anns) == 0
    requires forall j :: 0 <= j < i && events[j].Ensure? ==> !DropsCount(CtxOf(c, events[j]), states[j], events[j])
    requires Ann(states[i].anns, IdKey) != "" && FreshId(states[i].server, o)
    ensures CreatedId(states[i].server, NextKey(c, states[i].anns), o) != Ann(states[i].anns, IdKey)
  {
    CountNeverLost(c, states, events, i);
    WhenRecreationReplays(c, states, events, i, o);
  }

  lemma AfterALostCount(c: Ctx, want: seq<Listener>, st: State, o: Oracle)
    requires Tight(c, st) && FreshId(st.server, o) && Recreating(c, want, st, o)
    requires o.create == Fine && o.idWrite == Landed && o.countWrite == Refused && TookEffect(o.delete)
    ensures var after := EnsureStep(c, st.anns, want, st, o).st;
            Tight(c, after) && Replays(after.server, NextKey(c, after.anns), Ann(after.anns, IdKey))
  {
    var id, key := Ann(st.anns, IdKey), NextKey(c, st.anns);
    var gone := st.(server := Removal(st.server, id, o.delete));
    RemovalIsQuiet(st, id, o.delete);
    RecreateKeepsTight(c, want, st, o);
    CreateStepAnns(c, st.anns, want, gone, o, key, Count(st.anns) + 1);
    CreationLives(gone.server, key, want, o, "");
  }

  /** If the next key replays the named load balancer, recreating deletes it, gets it back and names it again:
      none is live any more. */
  lemma ReplayOfTheDeleted(c: Ctx, want: seq<Listener>, st: State, o: Oracle)
    requires Tight(c, st) && Replays(st.server, NextKey(c, st.anns), Ann(st.anns, IdKey))
    requires Recreating(c, want, st, o) && o.create == Fine && o.idWrite == Landed && TookEffect(o.delete)
    ensures var last := EnsureStep(c, st.anns, want, st, o).st;
            Ann(last.anns, IdKey) == Ann(st.anns, IdKey) && forall x :: !Live(last.server, x)
  {
    var id := Ann(st.anns, IdKey);
    var gone := st.(server := Removal(st.server, id, o.delete));
    forall x ensures !Live(gone.server, x) {
      RemovalLives(st.server, id, o.delete, x);
    }
    RemovalLives(st.server, id, o.delete, "");
    CreateStepAnns(c, st.anns, want, gone, o, NextKey(c, st.anns), Count(st.anns) + 1);
  }

  /** So a recreation whose count write is lost dooms the next one. */
  lemma LostCountReplaysTheDeleted(c: Ctx, want: seq<Listener>, st: State, o: Oracle, want2: seq<Listener>,
                                   st2: State, o2: Oracle)
    requires Tight(c, st) && FreshId(st.server, o) && Recreating(c, want, st, o)
    requires o.create == Fine && o.idWrite == Landed && o.countWrite == Refused && TookEffect(o.delete)
    requires st2 == EnsureStep(c, st.anns, want, st, o).st.(retries := st2.retries)
    requires Recreating(c, want2, st2, o2) && o2.create == Fine && o2.idWrite == Landed && TookEffect(o2.delete)
    ensures var last := EnsureStep(c, st2.anns, want2, st2, o2).st;
            Ann(last.anns, IdKey) == Ann(st2.anns, IdKey) && forall x :: !Live(last.server, x)
  {
    AfterALostCount(c, want, st, o);
    ReplayOfTheDeleted(c, want2, st2, o2);
  }

  // ---- A recreation whose response is lost ----

  /** A live load balancer that only its key leads to, while the name points at a dead one. */
  ghost predicate Forgotten(c: Ctx, st: State, x: string) {
    var id := Ann(st.anns, IdKey);
    && id != "" && id != x && !Live(st.server, id)
    && Live(st.server, x) && Replays(st.server, NextKey(c, st.anns), x)
  }

  /** The recreation's deletion takes effect and its creation too, but the response is lost. */
  lemma LostRecreationIsForgotten(c: Ctx, want: seq<Listener>, st: State, o: Oracle)
    requires Tight(c, st) && FreshId(st.server, o) && Recreating(c, want, st, o)
    requires Ann(st.anns, IdKey) in st.server.lbs && TookEffect(o.delete) && o.create == ResponseLost
    ensures var after, x := EnsureStep(c, st.anns, want, st, o).st, CreatedId(st.server, NextKey(c, st.anns), o);
            && (NextKey(c, st.anns) !in st.server.byKey ==> Forgotten(c, after, x))
            && (Live(after.server, x) <==> Forgotten(c, after, x))
  {
    var id, key := Ann(st.anns, IdKey), NextKey(c, st.anns);
    var gone, x := Removal(st.server, id, o.delete), CreatedId(st.server, key, o);
    RemovalIsQuiet(st, id, o.delete);
    RemovalLives(st.server, id, o.delete, id);
    CreateStepAnns(c, st.anns, want, st.(server := gone), o, key, Count(st.anns) + 1);
    CreationLives(gone, key, want, o, id);
    CreationLives(gone, key, want, o, x);
  }

  /** With a dead name, deletions and updates reach nothing. */
  lemma DeadName(st: State, want: seq<Listener>, o: Oracle, reply: DeleteReply)
    requires !Live(st.server, Ann(st.anns, IdKey))
    ensures Removal(st.server, Ann(st.anns, IdKey), reply) == st.server
    ensures UpdateSent(st, Ann(st.anns, IdKey), want, o) == st
  {
    var server, id := st.server, Ann(st.anns, IdKey);
    if id in server.lbs {
      assert server.lbs[id := server.lbs[id].(live := false)] == server.lbs;
    }
  }

  ghost predicate SameNameAndServer(st: State, after: State) {
    && after.server == st.server && Ann(after.anns, IdKey) == Ann(st.anns, IdKey)
    && Ann(after.anns, CountKey) == Ann(st.anns, CountKey)
  }

  lemma ReadyLeaves(c: Ctx, want: seq<Listener>, st: State, o: Oracle, view: View)
    requires !Live(st.server, Ann(st.anns, IdKey))
    ensures SameNameAndServer(st, ReadyStep(c, st.anns, want, st, o, view).st)
  {
    DeadName(st, want, o, o.delete);
    AwaitIsQuiet(c, st.anns, st, st, o, []);
  }

  lemma WaitingLeaves(c: Ctx, want: seq<Listener>, st: State, o: Oracle)
    requires !Live(st.server, Ann(st.anns, IdKey)) && Retries(st.retries, c.uid) < MAX_RETRIES
    ensures SameNameAndServer(st, NotReadyStep(c, st.anns, want, st, o).st)
  {
    DeadName(st, want, o, o.delete);
  }

  /** A recreation replays the forgotten load balancer. */
  lemma RecreateFinds(c: Ctx, want: seq<Listener>, st: State, o: Oracle, x: string)
    requires Forgotten(c, st, x) && Recreating(c, want, st, o)
    ensures var after := RecreateStep(c, st.anns, want, st, o).st;
            && after.server == st.server
            && (if Names(c, want, st, o) then Ann(after.anns, IdKey) == x
                else Ann(after.anns, IdKey) == Ann(st.anns, IdKey) && Count(after.anns) == Count(st.anns))
  {
    DeadName(st, want, o, o.delete);
    assert st.(server := Removal(st.server, Ann(st.anns, IdKey), o.delete)) == st;
    CountInRange(st.anns);
    CreateStepAnns(c, st.anns, want, st, o, NextKey(c, st.anns), Count(st.anns) + 1);
  }

  lemma SyncOnForgotten(c: Ctx, want: seq<Listener>, st: State, o: Oracle, x: string)
    requires Forgotten(c, st, x)
    ensures var after := EnsureStep(c, st.anns, want, st, o).st;
            && after.server == st.server
            && (if Names(c, want, st, o) then Ann(after.anns, IdKey) == x
                else Ann(after.anns, IdKey) == Ann(st.anns, IdKey) && Count(after.anns) == Count(st.anns))
  {
    DeadName(st, want, o, o.delete);
    if Recreating(c, want, st, o) {
      RecreateFinds(c, want, st, o, x);
    } else if o.get.Got? && IsReady(o.get.view) {
      ReadyLeaves(c, want, st, o, o.get.view);
    } else if Retries(st.retries, c.uid) < MAX_RETRIES {
      WaitingLeaves(c, want, st, o);
    }
  }

  /** The event is a sync that writes the durable id. */
  predicate NamesNow(c: Ctx, st: State, e: Event) {
    e.Ensure? && Names(CtxOf(c, e), e.want, st, e.o)
  }

  /** The load balancer does not go away by itself. */
  predicate Spares(e: Event, x: string) {
    !(e.Vanish? && e.id == x)
  }

  /** A forgotten load balancer is named again by a sync that names, and stays forgotten through anything else. */
  lemma FoundOrForgotten(c: Ctx, st: State, e: Event, x: string)
    requires Forgotten(c, st, x) && Spares(e, x)
    ensures var after := Next(c, st, e);
            if NamesNow(c, st, e) then Ann(after.anns, IdKey) == x
            else Forgotten(c, after, x) && Ann(after.anns, IdKey) == Ann(st.anns, IdKey)
  {
    var after, d := Next(c, st, e), CtxOf(c, e);
    match e
    case Ensure(_, _, want, o) =>
      assert NextKey(d, st.anns) == NextKey(c, st.anns);
      SyncOnForgotten(d, want, st, o, x);
    case UpdateHosts(_, want, o) => DeadName(st, want, o, o.delete);
    case EnsureDeleted(_, o) => DeadName(st, [], o, o.delete);
    case Vanish(id) =>
      RemovalLives(st.server, id, Accepted, x);
      RemovalLives(st.server, id, Accepted, Ann(st.anns, IdKey));
    case Restart =>
    case Annotate(key, value) =>
      assert Count(after.anns) == Count(st.anns);
  }

  /** Some sync names while the load balancer is still forgotten. */
  ghost predicate FoundAt(c: Ctx, states: seq<State>, events: seq<Event>, j: int, x: string)
    requires |states| == |events| + 1
  {
    0 <= j < |events| && NamesNow(c, states[j], events[j]) && Forgotten(c, states[j], x)
  }

  lemma {:induction false} StaysForgotten(c: Ctx, states: seq<State>, events: seq<Event>, i: nat, x: string)
    requires Run(c, states, events) && i <= |events| && Forgotten(c, states[0], x)
    requires forall j :: 0 <= j < i ==> Spares(events[j], x) && !FoundAt(c, states, events, j, x)
    ensures Forgotten(c, states[i], x) && Ann(states[i].anns, IdKey) == Ann(states[0].anns, IdKey)
  {
    if i > 0 {
      StaysForgotten(c, states, events, i - 1, x);
      FoundOrForgotten(c, states[i - 1], events[i - 1], x);
      assert !FoundAt(c, states, events, i - 1, x);
    }
  }

  /** In any run in which it does not go away by itself, the lost load balancer is named again exactly when some sync
      names while it is still forgotten: one that gets past its read, with the retries used up and a creation left. */
  lemma WhenFoundAgain(c: Ctx, states: seq<State>, events: seq<Event>, i: nat, x: string)
    requires Run(c, states, events) && i <= |events| && Forgotten(c, states[0], x)
    requires forall j :: 0 <= j < i ==> Spares(events[j], x)
    ensures (exists j :: 0 <= j <= i && Ann(states[j].anns, IdKey) == x)
            <==> exists j :: 0 <= j < i && FoundAt(c, states, events, j, x)
  {
    if j :| 0 <= j < i && FoundAt(c, states, events, j, x) {
      FoundOrForgotten(c, states[j], events[j], x);
      assert Ann(states[j + 1].anns, IdKey) == x;
    } else {
      forall j | 0 <= j <= i ensures Ann(states[j].anns, IdKey) != x {
        StaysForgotten(c, states, events, j, x);
      }
    }
  }

  // ---- ... on a server that forgets deleted load balancers ----

  /** A read of a load balancer that is not live fails. */
  predicate ForgetsDeleted(st: State, o: Oracle) {
    !Live(st.server, Ann(st.anns, IdKey)) ==> o.get == GetError
  }

  /** Syncs, host updates, restarts and other annotation writers, but no deletion of the Service. */
  predicate GoesOn(st: State, e: Event) {
    match e
    case Ensure(_, deleting, _, o) => !deleting && ForgetsDeleted(st, o)
    case UpdateHosts(_, _, o) => ForgetsDeleted(st, o)
    case Annotate(_, _) => true
    case Restart => true
    case EnsureDeleted(_, _) => false
    case Vanish(_) => false
  }

  lemma ForgottenStays(c: Ctx, st: State, e: Event, x: string)
    requires Forgotten(c, st, x) && GoesOn(st, e)
    ensures Next(c, st, e).server == st.server && Forgotten(c, Next(c, st, e), x)
    ensures Ann(Next(c, st, e).anns, IdKey) == Ann(st.anns, IdKey)
  {
    assert Count(Next(c, st, e).anns) == Count(st.anns);
  }

  lemma {:induction false} ForgottenForever(c: Ctx, states: seq<State>, events: seq<Event>, i: nat, x: string)
    requires Run(c, states, events) && i <= |events| && Forgotten(c, states[0], x)
    requires forall j :: 0 <= j < i ==> GoesOn(states[j], events[j])
    ensures Forgotten(c, states[i], x) && states[i].server == states[0].server
    ensures Ann(states[i].anns, IdKey) == Ann(states[0].anns, IdKey)
  {
    if i > 0 {
      ForgottenForever(c, states, events, i - 1, x);
      ForgottenStays(c, states[i - 1], events[i - 1], x);
    }
  }

  /** Not even deleting the Service removes it. */
  lemma ForgottenOutlivesTheService(c: Ctx, st: State, o: Oracle, x: string)
    requires Forgotten(c, st, x)
    ensures Live(DeleteStep(c, st.anns, st, o).st.server, x)
  {
    RemovalLives(st.server, Ann(st.anns, IdKey), o.delete, x);
  }

  /** A recreation deletes the old load balancer and creates another one, whose response is lost, on a server that
      forgets deleted ones. However long syncs, host updates and restarts go on, the new one stays live and replayable
      by the next key, but is never named, no sync sends that key, and deleting the Service leaves it behind. */
  lemma StuckAfterALostRecreation(c: Ctx, want: seq<Listener>, st: State, o: Oracle,
                                  states: seq<State>, events: seq<Event>, i: nat)
    requires Tight(c, st) && FreshId(st.server, o) && Recreating(c, want, st, o) && Ann(st.anns, IdKey) in st.server.lbs
    requires TookEffect(o.delete) && o.create == ResponseLost && NextKey(c, st.anns) !in st.server.byKey
    requires Run(c, states, events) && i < |events| && states[0] == EnsureStep(c, st.anns, want, st, o).st
    requires forall j :: 0 <= j <= i ==> GoesOn(states[j], events[j])
    ensures Forgotten(c, states[i], o.newId) && Ann(states[i].anns, IdKey) == Ann(st.anns, IdKey)
    ensures events[i].Ensure? ==>
              EnsureStep(CtxOf(c, events[i]), states[i].anns, events[i].want, states[i], events[i].o).creates == []
    ensures forall p :: Live(DeleteStep(c, states[i].anns, states[i], p).st.server, o.newId)
  {
    LostRecreationIsForgotten(c, want, st, o);
    ForgottenForever(c, states, events, i, o.newId);
    RemovalIsQuiet(st, Ann(st.anns, IdKey), o.delete);
    CountInRange(st.anns);
    CreateStepAnns(c, st.anns, want, st.(server := Removal(st.server, Ann(st.anns, IdKey), o.delete)), o,
                   NextKey(c, st.anns), Count(st.anns) + 1);
    forall p ensures Live(DeleteStep(c, states[i].anns, states[i], p).st.server, o.newId) {
      ForgottenOutlivesTheService(c, states[i], p, o.newId);
    }
  }

  // ---- After the Service is deleted ----

  /** The listing shows what is live, under the name of the Service's load balancer. */
  ghost predicate ListsLive(pages: Chain, server: Server, name: string) {
    && Complete(pages)
    && (forall x :: Live(server, x) ==> exists s :: s in Listed(pages) && s == Summary(x, name))
    && (forall s :: s in Listed(pages) && s.name == name ==> Live(server, s.id))
  }

  /** The first summary of that name. */
  ghost predicate FirstMatch(ss: seq<Summary>, name: string, i: int) {
    0 <= i < |ss| && ss[i].name == name && forall j :: 0 <= j < i ==> ss[j].name != name
  }

  lemma FirstMatchExists(ss: seq<Summary>, name: string) returns (i: nat)
    requires exists s :: s in ss && s.name == name
    ensures FirstMatch(ss, name, i) && FirstNamed(ss, name) == Some(ss[i].id)
  {
    FirstNamedMeaning(ss, name);
    var s :| s in ss && s.name == name;
    var k :| 0 <= k < |ss| && ss[k] == s;
    assert FirstNamed(ss, name).Some?;
    i :| 0 <= i < |ss| && ss[i] == Summary(FirstNamed(ss, name).value, name)
         && forall j :: 0 <= j < i ==> ss[j].name != name;
  }

  /** Success without an id means that nothing of that name was listed, or that the deletion of the first one was
      accepted or unneeded. */
  lemma DeletionByName(c: Ctx, st: State, o: Oracle)
    requires Ann(st.anns, IdKey) == "" && !ShouldSkip(c, st.anns)
    requires forall s :: s in Listed(o.pages) ==> s.id != ""
    ensures DeleteStep(c, st.anns, st, o).out == NoStatus <==>
              if exists s :: s in Listed(o.pages) && s.name == c.lbName then DeleteSucceeds(o.delete)
              else Complete(o.pages)
    ensures (exists s :: s in Listed(o.pages) && s.name == c.lbName) ==>
              exists i :: FirstMatch(Listed(o.pages), c.lbName, i)
                          && DeleteStep(c, st.anns, st, o).st.server
                               == Removal(st.server, Listed(o.pages)[i].id, o.delete)
  {
    var ss := Listed(o.pages);
    if exists s :: s in ss && s.name == c.lbName {
      var i := FirstMatchExists(ss, c.lbName);
      assert ss[i] in ss;
    } else {
      FirstNamedMeaning(ss, c.lbName);
      assert forall i :: 0 <= i < |ss| ==> ss[i] in ss;
    }
  }

  /** With an id, that load balancer is deleted and nothing else, and success means that the server took it or knew
      none; without one, a Service left to another controller is not touched. Otherwise the retry counter goes. */
  lemma DeletionById(c: Ctx, st: State, o: Oracle)
    ensures var r, id := DeleteStep(c, st.anns, st, o), Ann(st.anns, IdKey);
            && r.st.anns == st.anns && r.creates == [] && (r.out == NoStatus || r.out == Failed(RpcError))
            && (id != "" ==>
                  && (r.out == NoStatus <==> o.delete == Accepted || o.delete == AnsweredNotFound)
                  && forall x :: Live(r.st.server, x) <==>
                       Live(st.server, x) && !(x == id && (o.delete == Accepted || o.delete == AcceptedUnheard)))
            && (if id == "" && ShouldSkip(c, st.anns) then r.out == NoStatus && r.st == st
                else r.st.retries == st.retries - {c.uid})
  {
    var id := Ann(st.anns, IdKey);
    if id != "" {
      forall x ensures Live(Removal(st.server, id, o.delete), x) <==>
                         Live(st.server, x) && !(TookEffect(o.delete) && x == id)
      {
        RemovalLives(st.server, id, o.delete, x);
      }
    }
  }

  /** A successful deletion leaves nothing live, unless the next creation's key holds another live load balancer:
      that is what a recreation whose response was lost leaves behind for good. */
  lemma WhenDeletionLeaks(c: Ctx, st: State, o: Oracle)
    requires Tight(c, st) && !(ShouldSkip(c, st.anns) && Ann(st.anns, IdKey) == "")
    requires DeleteStep(c, st.anns, st, o).out == NoStatus
    requires o.delete == AnsweredNotFound ==> !Live(st.server, Ann(st.anns, IdKey))
    requires Ann(st.anns, IdKey) == "" ==> ListsLive(o.pages, st.server, c.lbName) && o.delete == Accepted
    ensures var after, next := DeleteStep(c, st.anns, st, o).st.server, NextKey(c, st.anns);
            (forall x :: !Live(after, x)) <==>
              !(Ann(st.anns, IdKey) != "" && next in st.server.byKey
                && st.server.byKey[next] != Ann(st.anns, IdKey) && Live(st.server, st.server.byKey[next]))
  {
    var id, after := Ann(st.anns, IdKey), DeleteStep(c, st.anns, st, o).st.server;
    if id != "" {
      forall x ensures Live(after, x) <==> Live(st.server, x) && !(TookEffect(o.delete) && x == id) {
        RemovalLives(st.server, id, o.delete, x);
      }
    } else {
      NamelessDeletionIsThorough(c, st, o);
    }
  }

  lemma NamelessDeletionIsThorough(c: Ctx, st: State, o: Oracle)
    requires Tight(c, st) && !ShouldSkip(c, st.anns) && Ann(st.anns, IdKey) == ""
    requires ListsLive(o.pages, st.server, c.lbName) && o.delete == Accepted
    ensures forall x :: !Live(DeleteStep(c, st.anns, st, o).st.server, x)
  {
    var ss := Listed(o.pages);
    FirstNamedMeaning(ss, c.lbName);
    if x :| Live(st.server, x) {
      var s :| s in ss && s == Summary(x, c.lbName);
      var i :| 0 <= i < |ss| && ss[i] == s;
      var k :| 0 <= k < |ss| && ss[k] == Summary(FirstNamed(ss, c.lbName).value, c.lbName);
      assert Live(st.server, ss[k].id);
      forall y ensures !Live(DeleteStep(c, st.anns, st, o).st.server, y) {
        RemovalLives(st.server, x, o.delete, y);
      }
    }
  }
}
