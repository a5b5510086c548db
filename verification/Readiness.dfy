/** What a sync answers: exactly when it publishes a status, of which observation, and what every failure means. */
module Readiness {
  import opened Text
  import opened Listeners
  import opened Lifecycle
  import opened NoLeak
  import opened HashGuard

  /** Ready with an ip and, where one is enabled, an active floating IP. */
  predicate IsUp(v: View, fip: bool) {
    v.state == Ready && v.ip != "" && (fip ==> v.fipState == FipActive)
  }

  /** The first poll that settles the matter shows this load balancer, serving. */
  ghost predicate FirstDecisive(polls: seq<GetReply>, fip: bool, v: View) {
    exists i :: DecisiveAt(polls, fip, v, i)
  }

  ghost predicate DecisiveAt(polls: seq<GetReply>, fip: bool, v: View, i: int) {
    && 0 <= i < |polls| && polls[i] == Got(v) && IsUp(v, fip)
    && forall j :: 0 <= j < i && polls[j].Got? ==> polls[j].view.state != FailedState && !IsUp(polls[j].view, fip)
  }

  lemma {:induction false} PollMeaning(polls: seq<GetReply>, fip: bool, v: View)
    ensures Poll(polls, fip) == Some(v) <==> FirstDecisive(polls, fip, v)
  {
    if polls != [] {
      var rest := polls[1..];
      if Decisive(polls[0], fip) {
        if Poll(polls, fip) == Some(v) {
          assert DecisiveAt(polls, fip, v, 0);
        }
      } else {
        PollMeaning(rest, fip, v);
        if Poll(rest, fip) == Some(v) {
          var i :| DecisiveAt(rest, fip, v, i);
          assert forall j :: 0 < j < i + 1 ==> polls[j] == rest[j - 1];
          assert DecisiveAt(polls, fip, v, i + 1);
        }
        if i :| DecisiveAt(polls, fip, v, i) {
          assert forall j :: 0 <= j < i - 1 ==> rest[j] == polls[j + 1];
          assert DecisiveAt(rest, fip, v, i - 1);
        }
      }
    }
  }

  /** The sync gets past its checks, to the load balancer or its creation. */
  predicate Proceeds(c: Ctx, want: seq<Listener>, st: State) {
    !ShouldSkip(c, st.anns) && !c.deleting && Validated(want)
  }

  /** The named load balancer is read, and this is shown of it. */
  predicate Reads(c: Ctx, want: seq<Listener>, st: State, o: Oracle) {
    Proceeds(c, want, st) && Ann(st.anns, IdKey) != "" && o.get.Got?
  }

  /** ... or the read works but shows no ready one. */
  predicate ReadsUnready(c: Ctx, want: seq<Listener>, st: State, o: Oracle) {
    && Proceeds(c, want, st) && Ann(st.anns, IdKey) != ""
    && o.get != GetError && !(o.get.Got? && IsReady(o.get.view))
  }

  /** No poll is needed: the named load balancer is read serving, with nothing to change. */
  predicate ReadAtOnce(c: Ctx, want: seq<Listener>, st: State, o: Oracle) {
    Reads(c, want, st, o) && IsUp(o.get.view, FipEnabled(c, st.anns)) && !ConfigChanged(c, st.anns, want)
  }

  /** The sync gets as far as polling: after a creation that was answered and whose id was written, after an update
      that was answered, or because the load balancer is ready but its floating IP is not active. */
  predicate ReachesPoll(c: Ctx, want: seq<Listener>, st: State, o: Oracle) {
    || (Creates(c, want, st, o) && o.create == Fine && o.idWrite == Landed)
    || (EnsureUpdates(c, want, st, o) && o.update == Fine && Live(st.server, Ann(st.anns, IdKey)))
    || (Reads(c, want, st, o) && IsReady(o.get.view) && !ConfigChanged(c, st.anns, want)
        && FipEnabled(c, st.anns) && o.get.view.fipState != FipActive)
  }

  /** The observation the sync decides on: the read if that is enough, otherwise the first decisive poll. */
  ghost predicate DecidesOn(c: Ctx, want: seq<Listener>, st: State, o: Oracle, v: View) {
    || (ReadAtOnce(c, want, st, o) && v == o.get.view)
    || (ReachesPoll(c, want, st, o) && FirstDecisive(o.polls, FipEnabled(c, st.anns), v))
  }

  function AddressOf(v: View, fip: bool): string {
    if fip && v.fip != "" then v.fip else v.ip
  }

  /** What is published for this observation. */
  ghost predicate Publishes(c: Ctx, anns: Annotations, out: Outcome, v: View) {
    && IsUp(v, FipEnabled(c, anns)) && out.Published? && out.address == AddressOf(v, FipEnabled(c, anns)) != ""
    && (out.mode == Proxy <==> c.cfg.onlyServiceController && IpType(c, anns) == "internal")
  }

  /** Why a sync fails. */
  ghost predicate FailsBy(c: Ctx, want: seq<Listener>, st: State, o: Oracle, reason: Failure) {
    var noNetwork := FipEnabled(c, st.anns) && c.cfg.fipNetworkId == "";
    var usedUp := ReadsUnready(c, want, st, o) && Retries(st.retries, c.uid) >= 10;
    match reason
    case ImplementedElsewhere =>
      c.cfg.onlyServiceController && (Ann(st.anns, NetworkKey) == "" || Ann(st.anns, SubnetKey) == "")
    case NoBackends => !ShouldSkip(c, st.anns) && !c.deleting && !Validated(want)
    case GaveUp => usedUp && Count(st.anns) >= 3
    case NoFipNetwork => noNetwork && (FirstCreating(c, want, st) || (usedUp && Count(st.anns) < 3))
    case RpcError =>
      || (Proceeds(c, want, st) && Ann(st.anns, IdKey) != "" && o.get == GetError)
      || (Creates(c, want, st, o) && o.create != Fine)
      || (EnsureUpdates(c, want, st, o) && !(o.update == Fine && Live(st.server, Ann(st.anns, IdKey))))
    case AnnotationWrite => Creates(c, want, st, o) && o.create == Fine && o.idWrite != Landed
    case NotReady =>
      || (ReachesPoll(c, want, st, o) && !exists v :: FirstDecisive(o.polls, FipEnabled(c, st.anns), v))
      || (ReadsUnready(c, want, st, o) && !ConfigChanged(c, st.anns, want) && Retries(st.retries, c.uid) < 10)
    case NoId => false
  }

  /** What polling yields. */
  ghost predicate Polled(c: Ctx, anns: Annotations, out: Outcome, o: Oracle) {
    && (forall v :: FirstDecisive(o.polls, FipEnabled(c, anns), v) ==> Publishes(c, anns, out, v))
    && ((!exists v :: FirstDecisive(o.polls, FipEnabled(c, anns), v)) ==> out == Failed(NotReady))
  }

  lemma AwaitPolls(c: Ctx, snap: Annotations, failed: State, ready: State, o: Oracle, creates: seq<string>)
    ensures var r := Await(c, snap, failed, ready, o, creates);
            Polled(c, snap, r.out, o) && r.creates == creates
  {
    var fip := FipEnabled(c, snap);
    forall v ensures Poll(o.polls, fip) == Some(v) <==> FirstDecisive(o.polls, fip, v) {
      PollMeaning(o.polls, fip, v);
    }
    assert Poll(o.polls, fip).Some? ==> FirstDecisive(o.polls, fip, Poll(o.polls, fip).value);
  }

  lemma CreatePolls(c: Ctx, snap: Annotations, want: seq<Listener>, st: State, o: Oracle, key: string, count: int)
    ensures var r := CreateStep(c, snap, want, st, o, key, count);
            if FipEnabled(c, snap) && c.cfg.fipNetworkId == "" then r.out == Failed(NoFipNetwork) && r.creates == []
            else
              && r.creates == [key]
              && if o.create != Fine then r.out == Failed(RpcError)
                 else if o.idWrite != Landed then r.out == Failed(AnnotationWrite)
                 else Polled(c, snap, r.out, o)
  {
    var done := Written(c, want, st, o, key, count);
    AwaitPolls(c, snap, done, done, o, [key]);
  }

  lemma ReadyPolls(c: Ctx, snap: Annotations, want: seq<Listener>, st: State, o: Oracle)
    requires o.get.Got? && IsReady(o.get.view) && Ann(snap, IdKey) != ""
    ensures var r := ReadyStep(c, snap, want, st, o, o.get.view);
            && r.creates == []
            && if ConfigChanged(c, snap, want) then
                 if o.update == Fine && Live(st.server, Ann(snap, IdKey)) then Polled(c, snap, r.out, o)
                 else r.out == Failed(RpcError)
               else if IsUp(o.get.view, FipEnabled(c, snap)) then Publishes(c, snap, r.out, o.get.view)
               else Polled(c, snap, r.out, o)
  {
    var done := Wrote(UpdateSent(st, Ann(snap, IdKey), want, o), HashKey, c.hash(want), o.hashWrite);
    AwaitPolls(c, snap, done, done, o, []);
    AwaitPolls(c, snap, st, st, o, []);
  }

  lemma WaitingPolls(c: Ctx, snap: Annotations, want: seq<Listener>, st: State, o: Oracle)
    requires Retries(st.retries, c.uid) < MAX_RETRIES
    ensures var r := NotReadyStep(c, snap, want, st, o);
            && r.creates == []
            && if !ConfigChanged(c, snap, want) then r.out == Failed(NotReady)
               else if o.update == Fine && Live(st.server, Ann(snap, IdKey)) then Polled(c, snap, r.out, o)
               else r.out == Failed(RpcError)
  {
    var done := Wrote(UpdateSent(st, Ann(snap, IdKey), want, o), HashKey, c.hash(want), o.hashWrite);
    AwaitPolls(c, snap, Incremented(done, c.uid), Cleared(done, c.uid), o, []);
  }

  /** The whole answer of a sync is what one polling phase, or none, gives. */
  ghost predicate Answers(c: Ctx, want: seq<Listener>, st: State, o: Oracle, out: Outcome) {
    && (forall v :: DecidesOn(c, want, st, o, v) ==> Publishes(c, st.anns, out, v))
    && (out.Published? <==> exists v :: DecidesOn(c, want, st, o, v))
    && (forall reason :: out == Failed(reason) <==> FailsBy(c, want, st, o, reason))
    && (out == NoStatus <==> c.deleting && !ShouldSkip(c, st.anns))
  }

  lemma AnswersByPoll(c: Ctx, want: seq<Listener>, st: State, o: Oracle, out: Outcome)
    requires ReachesPoll(c, want, st, o) && Polled(c, st.anns, out, o)
    ensures Answers(c, want, st, o, out)
  {
    if v :| FirstDecisive(o.polls, FipEnabled(c, st.anns), v) {
      assert DecidesOn(c, want, st, o, v);
    }
  }

  ghost predicate AnswersWell(c: Ctx, snap: Annotations, want: seq<Listener>, st: State, o: Oracle) {
    var r, at := EnsureStep(c, snap, want, st, o), st.(anns := snap);
    && Answers(c, want, at, o, r.out)
    && r.creates == if Creates(c, want, at, o) then [NextKey(c, snap)] else []
  }

  lemma CreatingAnswers(c: Ctx, snap: Annotations, want: seq<Listener>, st: State, o: Oracle)
    requires FirstCreating(c, want, st.(anns := snap))
    ensures AnswersWell(c, snap, want, st, o)
  {
    var at := st.(anns := snap);
    CreatePolls(c, snap, want, st, o, KeyFor(c, Count(snap)), 1);
    if ReachesPoll(c, want, at, o) {
      AnswersByPoll(c, want, at, o, EnsureStep(c, snap, want, st, o).out);
    }
  }

  lemma RecreatingAnswers(c: Ctx, snap: Annotations, want: seq<Listener>, st: State, o: Oracle)
    requires ReadsUnready(c, want, st.(anns := snap), o) && Retries(st.retries, c.uid) >= MAX_RETRIES
    ensures AnswersWell(c, snap, want, st, o)
  {
    var at := st.(anns := snap);
    var gone := st.(server := Removal(st.server, Ann(snap, IdKey), o.delete));
    CreatePolls(c, snap, want, gone, o, KeyFor(c, Count(snap) + 1), Count(snap) + 1);
    if ReachesPoll(c, want, at, o) {
      AnswersByPoll(c, want, at, o, EnsureStep(c, snap, want, st, o).out);
    }
  }

  lemma ReadingAnswers(c: Ctx, snap: Annotations, want: seq<Listener>, st: State, o: Oracle)
    requires var at := st.(anns := snap);
             || (Reads(c, want, at, o) && IsReady(o.get.view))
             || (ReadsUnready(c, want, at, o) && Retries(st.retries, c.uid) < MAX_RETRIES)
    ensures AnswersWell(c, snap, want, st, o)
  {
    var at, out := st.(anns := snap), EnsureStep(c, snap, want, st, o).out;
    if o.get.Got? && IsReady(o.get.view) {
      ReadyPolls(c, snap, want, st, o);
      assert ReadAtOnce(c, want, at, o) ==> DecidesOn(c, want, at, o, o.get.view);
    } else {
      WaitingPolls(c, snap, want, st, o);
    }
    if ReachesPoll(c, want, at, o) {
      AnswersByPoll(c, want, at, o, out);
    }
  }

  /** On every path, for any Service: a sync publishes exactly when it decides on an observation, and then one address
      of that load balancer, READY with an ip and, if a floating IP is enabled, with that active; the floating IP wins
      where there is one. In every other case but a deletion it fails, for the one reason that applies. It sends a
      creation, under the next key, exactly where `Creates` says. `snap` is the Service object passed in. */
  lemma SyncAnswers(c: Ctx, snap: Annotations, want: seq<Listener>, st: State, o: Oracle)
    ensures AnswersWell(c, snap, want, st, o)
  {
    var at := st.(anns := snap);
    if !Proceeds(c, want, at) {
    } else if Ann(snap, IdKey) == "" {
      CreatingAnswers(c, snap, want, st, o);
    } else if o.get == GetError {
    } else if (o.get.Got? && IsReady(o.get.view)) || Retries(st.retries, c.uid) < MAX_RETRIES {
      ReadingAnswers(c, snap, want, st, o);
    } else {
      RecreatingAnswers(c, snap, want, st, o);
    }
  }
}
