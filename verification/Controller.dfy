/** The controller on its own state, the stored Service and the remote server; each entry point against its step. */
module Controller {
  import opened Text
  import opened Endpoints
  import opened Listeners
  import opened ListenerIds
  import opened Deletion
  import opened Lifecycle

  class RemoteServer {
    var server: Server

    constructor (server: Server)
      ensures this.server == server
    {
      this.server := server;
    }

    method CreateLoadBalancer(key: string, sent: seq<Listener>, o: Oracle) returns (id: Option<string>)
      modifies this
      ensures server == if o.create == RequestLost then old(server) else Creation(old(server), key, sent, o)
      ensures id == if o.create == Fine then Some(CreatedId(old(server), key, o)) else None
    {
      if o.create == RequestLost {
        return None;
      }
      id := if o.create == Fine then Some(CreatedId(server, key, o)) else None;
      server := Creation(server, key, sent, o);
    }

    method GetLoadBalancer(id: string, o: Oracle) returns (reply: GetReply, listeners: seq<Listener>)
      ensures reply == o.get && listeners == Seen(server, id, o)
    {
      reply := o.get;
      listeners := if o.get.Got? && id in server.lbs then server.lbs[id].listeners else [];
    }

    method UpdateLoadBalancer(id: string, sent: seq<Listener>, o: Oracle) returns (ok: bool)
      modifies this
      ensures server == Updated(old(server), id, sent, o)
      ensures ok == (o.update == Fine && Live(old(server), id))
    {
      ok := o.update == Fine && Live(server, id);
      server := Updated(server, id, sent, o);
    }

    method DeleteLoadBalancer(id: string, o: Oracle) returns (reply: DeleteReply)
      modifies this
      ensures server == Removal(old(server), id, o.delete) && reply == o.delete
    {
      server := Removal(server, id, o.delete);
      reply := o.delete;
    }
  }

  class ServiceStore {
    var anns: Annotations

    constructor (anns: Annotations)
      ensures this.anns == anns
    {
      this.anns := anns;
    }

    method EnsureServiceAnnotation(k: AnnKey, v: string, f: WriteFault) returns (ok: bool)
      modifies this
      ensures anns == if f == Refused then old(anns) else old(anns)[k := v]
      ensures ok == (f == Landed)
    {
      if f != Refused {
        anns := anns[k := v];
      }
      ok := f == Landed;
    }
  }

  class LoadBalancer {
    const c: Ctx
    const remote: RemoteServer
    const store: ServiceStore
    var retryCounts: map<string, nat>

    constructor (c: Ctx, remote: RemoteServer, store: ServiceStore)
      ensures this.c == c && this.remote == remote && this.store == store && retryCounts == map[]
    {
      this.c, this.remote, this.store := c, remote, store;
      retryCounts := map[];
    }

    function Now(): State
      reads this, remote, store
    {
      State(store.anns, retryCounts, remote.server)
    }

    method ClearRetryCount()
      modifies this
      ensures retryCounts == old(retryCounts) - {c.uid}
    {
      retryCounts := retryCounts - {c.uid};
    }

    method IncrementRetryCount()
      modifies this
      ensures retryCounts == old(retryCounts)[c.uid := Retries(old(retryCounts), c.uid) + 1]
    {
      retryCounts := retryCounts[c.uid := Retries(retryCounts, c.uid) + 1];
    }

    /** The wait stops at the first observation that is ready or failed. */
    method PollLoadBalancerReady(snap: Annotations, polls: seq<GetReply>) returns (view: Option<View>)
      ensures view == Poll(polls, FipEnabled(c, snap))
    {
      var fip := FipEnabled(c, snap);
      var i := 0;
      while i < |polls|
        invariant 0 <= i <= |polls| && Poll(polls, fip) == Poll(polls[i..], fip)
      {
        var r := polls[i];
        if r.Got? {
          if r.view.state == FailedState {
            return None;
          }
          if r.view.state == Ready && r.view.ip != "" {
            if !fip || r.view.fipState == FipActive {
              return Some(r.view);
            }
          }
        }
        i := i + 1;
      }
      view := None;
    }

    method Publish(snap: Annotations, view: View, o: Oracle) returns (out: Outcome)
      modifies store
      ensures Now() == StoredIp(c, snap, old(Now()), view, o)
      ensures out == StatusOf(c, snap, view)
    {
      if IpType(c, snap) == "both" && view.ip != "" {
        var _ := store.EnsureServiceAnnotation(InternalIpKey, view.ip, o.ipWrite);
      }
      out := StatusOf(c, snap, view);
    }

    method CreateAndAwait(snap: Annotations, want: seq<Listener>, key: string, count: int, o: Oracle)
      returns (out: Outcome, ghost creates: seq<string>)
      modifies this, store, remote
      ensures Step(Now(), out, creates) == CreateStep(c, snap, want, old(Now()), o, key, count)
    {
      creates := [];
      if FipEnabled(c, snap) && c.cfg.fipNetworkId == "" {
        return Failed(NoFipNetwork), creates;
      }
      creates := [key];
      var id := remote.CreateLoadBalancer(key, want, o);
      if id.None? {
        return Failed(RpcError), creates;
      }
      var ok := store.EnsureServiceAnnotation(IdKey, id.value, o.idWrite);
      if !ok {
        return Failed(AnnotationWrite), creates;
      }
      var _ := store.EnsureServiceAnnotation(CountKey, Itoa(count), o.countWrite);
      var _ := store.EnsureServiceAnnotation(HashKey, c.hash(want), o.hashWrite);
      ClearRetryCount();
      var view := PollLoadBalancerReady(snap, o.polls);
      if view.None? {
        return Failed(NotReady), creates;
      }
      out := Publish(snap, view.value, o);
    }

    method EnsureLoadBalancer(snap: Annotations, inp: Inputs, usable: Usable, o: Oracle)
      returns (out: Outcome, ghost creates: seq<string>)
      modifies this, store, remote
      ensures Step(Now(), out, creates) == EnsureStep(c, snap, ListenersOf(inp, usable), old(Now()), o)
    {
      creates := [];
      if ShouldSkip(c, snap) {
        return Failed(ImplementedElsewhere), creates;
      }
      if c.deleting {
        var _ := EnsureLoadBalancerDeleted(snap, o);
        return NoStatus, creates;
      }
      var id := Ann(snap, IdKey);
      var want := BuildListeners(inp, usable);
      var verdict := ValidateListeners(want);
      if verdict != Valid {
        return Failed(NoBackends), creates;
      }
      if id == "" {
        out, creates := CreateAndAwait(snap, want, KeyFor(c, Count(snap)), 1, o);
        return;
      }
      var reply, current := remote.GetLoadBalancer(id, o);
      if reply == GetError {
        return Failed(RpcError), creates;
      }
      if reply.Got? && reply.view.state == Ready && reply.view.ip != "" {
        out := EnsureReady(snap, want, reply.view, current, o);
        return;
      }
      out, creates := EnsureNotReady(snap, want, current, o);
    }

    method EnsureNotReady(snap: Annotations, want: seq<Listener>, current: seq<Listener>, o: Oracle)
      returns (out: Outcome, ghost creates: seq<string>)
      requires current == Seen(remote.server, Ann(snap, IdKey), o)
      modifies this, store, remote
      ensures Step(Now(), out, creates) == NotReadyStep(c, snap, want, old(Now()), o)
    {
      creates := [];
      var id := Ann(snap, IdKey);
      if Retries(retryCounts, c.uid) >= MAX_RETRIES {
        out, creates := Recreate(snap, want, o);
        return;
      }
      if ConfigChanged(c, snap, want) {
        var ok := remote.UpdateLoadBalancer(id, Merge(want, current), o);
        if !ok {
          IncrementRetryCount();
          return Failed(RpcError), creates;
        }
        var _ := store.EnsureServiceAnnotation(HashKey, c.hash(want), o.hashWrite);
        var view := PollLoadBalancerReady(snap, o.polls);
        if view.None? {
          IncrementRetryCount();
          return Failed(NotReady), creates;
        }
        ClearRetryCount();
        out := Publish(snap, view.value, o);
        return;
      }
      IncrementRetryCount();
      out := Failed(NotReady);
    }

    method Recreate(snap: Annotations, want: seq<Listener>, o: Oracle)
      returns (out: Outcome, ghost creates: seq<string>)
      modifies this, store, remote
      ensures Step(Now(), out, creates) == RecreateStep(c, snap, want, old(Now()), o)
    {
      creates := [];
      var count := Count(snap);
      if count >= MAX_CREATES {
        return Failed(GaveUp), creates;
      }
      if FipEnabled(c, snap) && c.cfg.fipNetworkId == "" {
        return Failed(NoFipNetwork), creates;
      }
      // The answer to the deletion is not looked at.
      var _ := remote.DeleteLoadBalancer(Ann(snap, IdKey), o);
      out, creates := CreateAndAwait(snap, want, KeyFor(c, count + 1), count + 1, o);
    }

    method EnsureReady(snap: Annotations, want: seq<Listener>, seen: View, current: seq<Listener>, o: Oracle)
      returns (out: Outcome)
      requires IsReady(seen) && current == Seen(remote.server, Ann(snap, IdKey), o)
      modifies this, store, remote
      ensures Step(Now(), out, []) == ReadyStep(c, snap, want, old(Now()), o, seen)
    {
      var id := Ann(snap, IdKey);
      var changed := ConfigChanged(c, snap, want);
      if changed {
        var ok := remote.UpdateLoadBalancer(id, Merge(want, current), o);
        if !ok {
          return Failed(RpcError);
        }
        var _ := store.EnsureServiceAnnotation(HashKey, c.hash(want), o.hashWrite);
      }
      if changed || (FipEnabled(c, snap) && seen.fipState != FipActive) {
        var view := PollLoadBalancerReady(snap, o.polls);
        if view.None? {
          return Failed(NotReady);
        }
        out := Publish(snap, view.value, o);
        return;
      }
      ClearRetryCount();
      out := StatusOf(c, snap, seen);
    }

    method UpdateLoadBalancer(snap: Annotations, inp: Inputs, usable: Usable, o: Oracle) returns (out: Outcome)
      modifies store, remote
      ensures Step(Now(), out, []) == UpdateStep(c, snap, ListenersOf(inp, usable), old(Now()), o)
    {
      var id := Ann(snap, IdKey);
      if ShouldSkip(c, snap) && id == "" {
        return NoStatus;
      }
      if id == "" {
        return Failed(NoId);
      }
      var want := BuildListeners(inp, usable);
      var verdict := ValidateListeners(want);
      if verdict != Valid {
        return Failed(NoBackends);
      }
      if !ConfigChanged(c, snap, want) {
        return NoStatus;
      }
      var reply, current := remote.GetLoadBalancer(id, o);
      if reply == GetError {
        return Failed(RpcError);
      }
      var ok := remote.UpdateLoadBalancer(id, Merge(want, current), o);
      if !ok {
        return Failed(RpcError);
      }
      var _ := store.EnsureServiceAnnotation(HashKey, c.hash(want), o.hashWrite);
      out := NoStatus;
    }

    method EnsureLoadBalancerDeleted(snap: Annotations, o: Oracle) returns (out: Outcome)
      modifies this, remote
      ensures Step(Now(), out, []) == DeleteStep(c, snap, old(Now()), o)
    {
      var id := Ann(snap, IdKey);
      if ShouldSkip(c, snap) && id == "" {
        return NoStatus;
      }
      if id == "" {
        var found := FindLoadBalancerByName(o.pages, c.lbName);
        if found.None? {
          ClearRetryCount();
          return Failed(RpcError);
        }
        id := found.value;
      }
      if id == "" {
        ClearRetryCount();
        return NoStatus;
      }
      var reply := remote.DeleteLoadBalancer(id, o);
      ClearRetryCount();
      if reply != Accepted && reply != AnsweredNotFound {
        return Failed(RpcError);
      }
      out := NoStatus;
    }
  }
}
