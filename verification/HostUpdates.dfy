/** What a sync and a host update send to the server, what the server then serves, and what the caller hears. */
module HostUpdates {
  import opened Listeners
  import opened ListenerIds
  import opened IdPreservation
  import opened Lifecycle
  import opened NoLeak
  import opened HashGuard

  // ---- UpdateLoadBalancer ----

  /** Success means that the desired listeners are in place already as far as the hash tells, that the update was
      answered, or that another controller is responsible; every failure has one cause. */
  lemma HostUpdateAnswers(c: Ctx, snap: Annotations, want: seq<Listener>, st: State, o: Oracle)
    ensures var out, id := UpdateStep(c, snap, want, st, o).out, Ann(snap, IdKey);
            var elsewhere := c.cfg.onlyServiceController && (Ann(snap, NetworkKey) == "" || Ann(snap, SubnetKey) == "");
            var asked := HostsUpdate(c, want, st.(anns := snap), o);
            && (asked ==> (out == NoStatus <==> o.update == Fine && Live(st.server, id)))
            && (!asked ==> (out == NoStatus <==> if id == "" then elsewhere
                                                 else Validated(want) && Ann(snap, HashKey) == c.hash(want)))
            && (out == Failed(NoId) <==> id == "" && !elsewhere)
            && (out == Failed(NoBackends) <==> id != "" && !Validated(want))
            && (out.Failed? ==> out.reason in {NoId, NoBackends, RpcError}) && !out.Published?
  {
  }

  /** When the update is sent, what comes of it does not depend on what the caller hears: if it takes effect, the named
      load balancer serves the desired listeners, and otherwise what it served before. No other one is touched. */
  lemma HostUpdateServes(c: Ctx, want: seq<Listener>, st: State, o: Oracle)
    requires Honest(o)
    ensures var r, id := UpdateStep(c, st.anns, want, st, o), Ann(st.anns, IdKey);
            var works := HostsUpdate(c, want, st, o) && o.update != RequestLost && Live(st.server, id);
            && (works ==> Live(r.st.server, id) && Alike(Held(r.st.server, id), want))
            && (!works ==> r.st == st)
            && (r.out == NoStatus && HostsUpdate(c, want, st, o) ==> works)
            && r.st.server.byKey == st.server.byKey && r.st.retries == st.retries && r.creates == []
            && (forall x :: x != id ==> Live(r.st.server, x) == Live(st.server, x)
                                        && Held(r.st.server, x) == Held(st.server, x))
  {
    if HostsUpdate(c, want, st, o) && o.update != RequestLost && Live(st.server, Ann(st.anns, IdKey)) {
      UpdateServes(want, st, o);
    }
  }

  // ---- Updates by either entry point ----

  /** What a sync does to the server: one update, one creation, with the old load balancer deleted before a recreation,
      one deletion when the Service goes, or nothing. */
  lemma WhatIsSent(c: Ctx, want: seq<Listener>, st: State, o: Oracle)
    ensures var after, id := EnsureStep(c, st.anns, want, st, o).st.server, Ann(st.anns, IdKey);
            var gone := if Recreating(c, want, st, o) then Removal(st.server, id, o.delete) else st.server;
            after == if EnsureUpdates(c, want, st, o) then UpdateSent(st, id, want, o).server
                     else if Creates(c, want, st, o) && o.create != RequestLost then
                       Creation(gone, NextKey(c, st.anns), want, o)
                     else if c.deleting && !ShouldSkip(c, st.anns) then DeleteStep(c, st.anns, st, o).st.server
                     else gone
  {
    var done := Recorded(c, want, st, o);
    CountInRange(st.anns);
    if EnsureUpdates(c, want, st, o) {
      AwaitIsQuiet(c, st.anns, done, done, o, []);
      AwaitIsQuiet(c, st.anns, Incremented(done, c.uid), Cleared(done, c.uid), o, []);
    } else if FirstCreating(c, want, st) {
      CreateStepAnns(c, st.anns, want, st, o, NextKey(c, st.anns), 1);
    } else if Recreating(c, want, st, o) {
      RecreateServer(c, want, st, o);
    } else {
      AwaitIsQuiet(c, st.anns, st, st, o, []);
    }
  }

  /** The server after either entry point had an update to send. */
  predicate UpdatedBy(c: Ctx, want: seq<Listener>, st: State, o: Oracle, after: Server) {
    || (EnsureUpdates(c, want, st, o) && after == EnsureStep(c, st.anns, want, st, o).st.server)
    || (HostsUpdate(c, want, st, o) && after == UpdateStep(c, st.anns, want, st, o).st.server)
  }

  lemma UpdatedBySent(c: Ctx, want: seq<Listener>, st: State, o: Oracle, after: Server)
    requires UpdatedBy(c, want, st, o, after)
    ensures after == UpdateSent(st, Ann(st.anns, IdKey), want, o).server
  {
    WhatIsSent(c, want, st, o);
  }

  /** An update that takes effect leaves exactly the desired content. Whichever served listener is still desired keeps
      its id, and where both have one rule with one backend, the ids of these; the others go. */
  lemma UpdateKeepsIds(c: Ctx, want: seq<Listener>, st: State, o: Oracle, after: Server, served: Listener)
    requires UpdatedBy(c, want, st, o, after) && Honest(o) && o.get.Got? && NoIds(want) && AllSingle(want)
    requires o.update != RequestLost && Live(st.server, Ann(st.anns, IdKey))
    requires WellKept(Held(st.server, Ann(st.anns, IdKey))) && served in Held(st.server, Ann(st.anns, IdKey))
    ensures var got := Held(after, Ann(st.anns, IdKey));
            && Alike(got, want)
            && (KnownId(got, served.id) <==> exists i :: 0 <= i < |want| && ListenerKey(want[i]) == ListenerKey(served))
            && forall i :: 0 <= i < |want| && ListenerKey(want[i]) == ListenerKey(served) ==>
                 && got[i].id == served.id && SingleBackend(got[i])
                 && (SingleRule(served) ==> got[i].rules[0].id == served.rules[0].id)
                 && (SingleBackend(served) ==> got[i].rules[0].backends[0].id == served.rules[0].backends[0].id)
  {
    UpdatedBySent(c, want, st, o, after);
    var id := Ann(st.anns, IdKey);
    var current, got := Held(st.server, id), Held(after, id);
    assert Reconciled(current, Merge(want, current), got);
    OnlyUndesiredRemoved(want, current, got, served);
    forall i | 0 <= i < |want| && ListenerKey(want[i]) == ListenerKey(served)
      ensures got[i].id == served.id && SingleBackend(got[i])
      ensures SingleRule(served) ==> got[i].rules[0].id == served.rules[0].id
      ensures SingleBackend(served) ==> got[i].rules[0].backends[0].id == served.rules[0].backends[0].id
    {
      AlikeIsSingle(got, want);
      IdsKept(want, current, got, i, served);
    }
  }
}
