/** What a sync writes down: the retry counter in memory and the annotations of the stored Service. */
module Bookkeeping {
  import opened Text
  import opened Listeners
  import opened Lifecycle
  import opened NoLeak
  import opened HashGuard
  import opened Readiness

  // ---- The retry counter ----

  /** An update of a load balancer that was not ready, after which it is seen up. */
  ghost predicate Recovers(c: Ctx, want: seq<Listener>, st: State, o: Oracle) {
    && ReadsUnready(c, want, st, o) && EnsureUpdates(c, want, st, o) && ReachesPoll(c, want, st, o)
    && exists v :: FirstDecisive(o.polls, FipEnabled(c, st.anns), v)
  }

  /** The counter starts over: a creation was answered and named, the load balancer is up, or the Service goes. */
  ghost predicate StartsOver(c: Ctx, want: seq<Listener>, st: State, o: Oracle) {
    || (Creates(c, want, st, o) && o.create == Fine && o.idWrite == Landed)
    || ReadAtOnce(c, want, st, o) || Recovers(c, want, st, o) || (c.deleting && !ShouldSkip(c, st.anns))
  }

  /** A sync that finds the load balancer not ready and does not bring it up counts, up to ten. */
  ghost predicate CountsOne(c: Ctx, want: seq<Listener>, st: State, o: Oracle) {
    ReadsUnready(c, want, st, o) && Retries(st.retries, c.uid) < 10 && !Recovers(c, want, st, o)
  }

  ghost predicate CounterMoves(st: State, after: State, uid: string, value: nat) {
    && Retries(after.retries, uid) == value
    && forall u :: u != uid ==> Retries(after.retries, u) == Retries(st.retries, u)
  }

  lemma AwaitCounts(c: Ctx, snap: Annotations, failed: State, ready: State, o: Oracle, creates: seq<string>)
    ensures Await(c, snap, failed, ready, o, creates).st.retries
         == if exists v :: FirstDecisive(o.polls, FipEnabled(c, snap), v) then ready.retries else failed.retries
  {
    var fip := FipEnabled(c, snap);
    forall v ensures Poll(o.polls, fip) == Some(v) <==> FirstDecisive(o.polls, fip, v) {
      PollMeaning(o.polls, fip, v);
    }
    assert Poll(o.polls, fip).Some? ==> FirstDecisive(o.polls, fip, Poll(o.polls, fip).value);
  }

  lemma CreateCounts(c: Ctx, want: seq<Listener>, st: State, o: Oracle, key: string, count: int)
    ensures var r := CreateStep(c, st.anns, want, st, o, key, count).st;
            var sent := !(FipEnabled(c, st.anns) && c.cfg.fipNetworkId == "");
            r.retries == if sent && o.create == Fine && o.idWrite == Landed then st.retries - {c.uid} else st.retries
  {
    var done := Written(c, want, st, o, key, count);
    AwaitCounts(c, st.anns, done, done, o, [key]);
  }

  lemma ReadyCounts(c: Ctx, want: seq<Listener>, st: State, o: Oracle)
    requires Reads(c, want, st, o) && IsReady(o.get.view)
    ensures var r := ReadyStep(c, st.anns, want, st, o, o.get.view).st;
            r.retries == if ReadAtOnce(c, want, st, o) then st.retries - {c.uid} else st.retries
  {
    var done := Recorded(c, want, st, o);
    AwaitCounts(c, st.anns, done, done, o, []);
    AwaitCounts(c, st.anns, st, st, o, []);
  }

  lemma UnreadyCounts(c: Ctx, want: seq<Listener>, st: State, o: Oracle)
    requires ReadsUnready(c, want, st, o) && Retries(st.retries, c.uid) < MAX_RETRIES
    ensures var r := NotReadyStep(c, st.anns, want, st, o).st;
            r.retries == if Recovers(c, want, st, o) then st.retries - {c.uid}
                         else st.retries[c.uid := Retries(st.retries, c.uid) + 1]
  {
    var done := Recorded(c, want, st, o);
    AwaitCounts(c, st.anns, Incremented(done, c.uid), Cleared(done, c.uid), o, []);
  }

  /** Exactly when the counter of a Service is cleared, counts one up, or stays; other Services' counters stay. */
  lemma RetryCounter(c: Ctx, want: seq<Listener>, st: State, o: Oracle)
    ensures CounterMoves(st, EnsureStep(c, st.anns, want, st, o).st, c.uid,
                         if StartsOver(c, want, st, o) then 0
                         else if CountsOne(c, want, st, o) then Retries(st.retries, c.uid) + 1
                         else Retries(st.retries, c.uid))
  {
    if FirstCreating(c, want, st) {
      CreateCounts(c, want, st, o, NextKey(c, st.anns), 1);
    } else if Reads(c, want, st, o) && IsReady(o.get.view) {
      ReadyCounts(c, want, st, o);
    } else if ReadsUnready(c, want, st, o) {
      if Retries(st.retries, c.uid) < MAX_RETRIES {
        UnreadyCounts(c, want, st, o);
      } else {
        var gone := st.(server := Removal(st.server, Ann(st.anns, IdKey), o.delete));
        CreateCounts(c, want, gone, o, NextKey(c, st.anns), Count(st.anns) + 1);
      }
    }
  }

  // ---- The annotations ----

  /** The annotation gets this value, or is left alone. */
  ghost predicate Becomes(before: Annotations, after: Annotations, k: AnnKey, value: Option<string>) {
    if value.Some? then k in after && after[k] == value.value
    else (k in after <==> k in before) && (k in before ==> after[k] == before[k])
  }

  /** What a sync can write, and nothing besides: the id, the count, the hash and, once polled, the internal address. */
  ghost predicate Writes(before: Annotations, after: Annotations, id: Option<string>, count: Option<string>,
                         hash: Option<string>) {
    && Becomes(before, after, IdKey, id) && Becomes(before, after, CountKey, count)
    && Becomes(before, after, HashKey, hash)
    && forall k :: k !in {IdKey, CountKey, HashKey, InternalIpKey} ==> Becomes(before, after, k, None)
  }

  /** The internal address is noted from the poll that shows the load balancer up. */
  ghost predicate NotesIp(c: Ctx, snap: Annotations, before: Annotations, after: Annotations, o: Oracle, polls: bool) {
    var fip := FipEnabled(c, snap);
    if polls && o.ipWrite != Refused && IpType(c, snap) == "both" && exists v :: FirstDecisive(o.polls, fip, v) then
      forall v :: FirstDecisive(o.polls, fip, v) ==> Becomes(before, after, InternalIpKey, Some(v.ip))
    else Becomes(before, after, InternalIpKey, None)
  }

  lemma AwaitNotes(c: Ctx, snap: Annotations, failed: State, ready: State, o: Oracle, creates: seq<string>)
    requires failed.anns == ready.anns
    ensures var r := Await(c, snap, failed, ready, o, creates).st;
            NotesIp(c, snap, ready.anns, r.anns, o, true) && Writes(ready.anns, r.anns, None, None, None)
  {
    var fip := FipEnabled(c, snap);
    forall v ensures Poll(o.polls, fip) == Some(v) <==> FirstDecisive(o.polls, fip, v) {
      PollMeaning(o.polls, fip, v);
    }
    assert Poll(o.polls, fip).Some? ==> FirstDecisive(o.polls, fip, Poll(o.polls, fip).value);
  }

  /** Waiting after something has been written. */
  lemma ThenAwaits(c: Ctx, snap: Annotations, before: Annotations, failed: State, ready: State, o: Oracle,
                   creates: seq<string>, id: Option<string>, count: Option<string>, hash: Option<string>)
    requires failed.anns == ready.anns && Writes(before, ready.anns, id, count, hash)
    requires Becomes(before, ready.anns, InternalIpKey, None)
    ensures var after := Await(c, snap, failed, ready, o, creates).st.anns;
            Writes(before, after, id, count, hash) && NotesIp(c, snap, before, after, o, true)
  {
    AwaitNotes(c, snap, failed, ready, o, creates);
    var after := Await(c, snap, failed, ready, o, creates).st.anns;
    forall k | k !in {IdKey, CountKey, HashKey, InternalIpKey} ensures Becomes(before, after, k, None) {
      assert Becomes(before, ready.anns, k, None) && Becomes(ready.anns, after, k, None);
    }
  }

  function When(written: bool, value: string): Option<string> {
    if written then Some(value) else None
  }

  lemma WrittenAnns(c: Ctx, want: seq<Listener>, st: State, o: Oracle, key: string, count: int)
    requires o.idWrite == Landed
    ensures var done := Written(c, want, st, o, key, count).anns;
            && Writes(st.anns, done, Some(CreatedId(st.server, key, o)), When(o.countWrite != Refused, Itoa(count)),
                      When(o.hashWrite != Refused, c.hash(want)))
            && Becomes(st.anns, done, InternalIpKey, None)
  {
  }

  lemma CreateWrites(c: Ctx, want: seq<Listener>, st: State, o: Oracle, key: string, count: int)
    requires !(FipEnabled(c, st.anns) && c.cfg.fipNetworkId == "")
    ensures var after := CreateStep(c, st.anns, want, st, o, key, count).st.anns;
            var heard := o.create == Fine && o.idWrite == Landed;
            && Writes(st.anns, after, When(o.create == Fine && o.idWrite != Refused, CreatedId(st.server, key, o)),
                      When(heard && o.countWrite != Refused, Itoa(count)),
                      When(heard && o.hashWrite != Refused, c.hash(want)))
            && NotesIp(c, st.anns, st.anns, after, o, heard)
  {
    if o.create == Fine && o.idWrite == Landed {
      var done := Written(c, want, st, o, key, count);
      WrittenAnns(c, want, st, o, key, count);
      ThenAwaits(c, st.anns, st.anns, done, done, o, [key], Some(CreatedId(st.server, key, o)),
                 When(o.countWrite != Refused, Itoa(count)), When(o.hashWrite != Refused, c.hash(want)));
      assert CreateStep(c, st.anns, want, st, o, key, count) == Await(c, st.anns, done, done, o, [key]);
    }
  }

  lemma RecordedAnns(c: Ctx, want: seq<Listener>, st: State, o: Oracle)
    ensures var done := Recorded(c, want, st, o).anns;
            var heard := o.update == Fine && Live(st.server, Ann(st.anns, IdKey));
            && Writes(st.anns, done, None, None, When(heard && o.hashWrite != Refused, c.hash(want)))
            && Becomes(st.anns, done, InternalIpKey, None)
  {
  }

  lemma ReadyWrites(c: Ctx, want: seq<Listener>, st: State, o: Oracle)
    requires Reads(c, want, st, o) && IsReady(o.get.view)
    ensures var after := ReadyStep(c, st.anns, want, st, o, o.get.view).st.anns;
            var heard := EnsureUpdates(c, want, st, o) && o.update == Fine && Live(st.server, Ann(st.anns, IdKey));
            && Writes(st.anns, after, None, None, When(heard && o.hashWrite != Refused, c.hash(want)))
            && NotesIp(c, st.anns, st.anns, after, o, ReachesPoll(c, want, st, o))
  {
    if ConfigChanged(c, st.anns, want) {
      var done := Recorded(c, want, st, o);
      RecordedAnns(c, want, st, o);
      if o.update == Fine && Live(st.server, Ann(st.anns, IdKey)) {
        ThenAwaits(c, st.anns, st.anns, done, done, o, [], None, None, When(o.hashWrite != Refused, c.hash(want)));
      }
    } else {
      AwaitNotes(c, st.anns, st, st, o, []);
    }
  }

  lemma UnreadyWrites(c: Ctx, want: seq<Listener>, st: State, o: Oracle)
    requires ReadsUnready(c, want, st, o) && Retries(st.retries, c.uid) < MAX_RETRIES
    ensures var after := NotReadyStep(c, st.anns, want, st, o).st.anns;
            var heard := EnsureUpdates(c, want, st, o) && o.update == Fine && Live(st.server, Ann(st.anns, IdKey));
            && Writes(st.anns, after, None, None, When(heard && o.hashWrite != Refused, c.hash(want)))
            && NotesIp(c, st.anns, st.anns, after, o, ReachesPoll(c, want, st, o))
  {
    var done := Recorded(c, want, st, o);
    RecordedAnns(c, want, st, o);
    if ConfigChanged(c, st.anns, want) && o.update == Fine && Live(st.server, Ann(st.anns, IdKey)) {
      ThenAwaits(c, st.anns, st.anns, Incremented(done, c.uid), Cleared(done, c.uid), o, [], None, None,
                 When(o.hashWrite != Refused, c.hash(want)));
    }
  }

  lemma CreationWrites(c: Ctx, want: seq<Listener>, st: State, o: Oracle)
    requires Creates(c, want, st, o)
    ensures var after := EnsureStep(c, st.anns, want, st, o).st.anns;
            var heard := o.create == Fine && o.idWrite == Landed;
            && Writes(st.anns, after,
                      When(o.create == Fine && o.idWrite != Refused, CreatedId(st.server, NextKey(c, st.anns), o)),
                      When(heard && o.countWrite != Refused,
                           Itoa(if Ann(st.anns, IdKey) == "" then 1 else Count(st.anns) + 1)),
                      When(heard && o.hashWrite != Refused, c.hash(want)))
            && NotesIp(c, st.anns, st.anns, after, o, heard)
  {
    var key := NextKey(c, st.anns);
    if FirstCreating(c, want, st) {
      CreateWrites(c, want, st, o, key, 1);
      assert EnsureStep(c, st.anns, want, st, o) == CreateStep(c, st.anns, want, st, o, key, 1);
    } else {
      var gone := st.(server := Removal(st.server, Ann(st.anns, IdKey), o.delete));
      CreateWrites(c, want, gone, o, key, Count(st.anns) + 1);
      assert EnsureStep(c, st.anns, want, st, o) == CreateStep(c, gone.anns, want, gone, o, key, Count(st.anns) + 1);
    }
  }

  lemma UpdateWrites(c: Ctx, want: seq<Listener>, st: State, o: Oracle)
    requires !Creates(c, want, st, o)
    ensures var after := EnsureStep(c, st.anns, want, st, o).st.anns;
            var heard := EnsureUpdates(c, want, st, o) && o.update == Fine && Live(st.server, Ann(st.anns, IdKey));
            && Writes(st.anns, after, None, None, When(heard && o.hashWrite != Refused, c.hash(want)))
            && NotesIp(c, st.anns, st.anns, after, o, ReachesPoll(c, want, st, o))
  {
    if Reads(c, want, st, o) && IsReady(o.get.view) {
      ReadyWrites(c, want, st, o);
    } else if ReadsUnready(c, want, st, o) && Retries(st.retries, c.uid) < MAX_RETRIES {
      UnreadyWrites(c, want, st, o);
    }
  }

  /** All four annotations, and when: the id of the load balancer the creation yields, heard or not; the count, once
      that is written; the hash, after an answered creation or update; the internal address, after a poll. */
  lemma AnnotationsWritten(c: Ctx, want: seq<Listener>, st: State, o: Oracle)
    ensures var after := EnsureStep(c, st.anns, want, st, o).st.anns;
            var named := Names(c, want, st, o) && o.idWrite == Landed;
            var updated := EnsureUpdates(c, want, st, o) && o.update == Fine && Live(st.server, Ann(st.anns, IdKey));
            && Writes(st.anns, after, When(Names(c, want, st, o), CreatedId(st.server, NextKey(c, st.anns), o)),
                      When(named && o.countWrite != Refused,
                           Itoa(if Ann(st.anns, IdKey) == "" then 1 else Count(st.anns) + 1)),
                      When((named || updated) && o.hashWrite != Refused, c.hash(want)))
            && NotesIp(c, st.anns, st.anns, after, o, ReachesPoll(c, want, st, o))
  {
    if Creates(c, want, st, o) {
      CreationWrites(c, want, st, o);
    } else {
      UpdateWrites(c, want, st, o);
    }
  }
}
