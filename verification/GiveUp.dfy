/** A load balancer that never gets ready: how often it is recreated and when the controller stops. */
module GiveUp {
  import opened Text
  import opened Seqs
  import opened Listeners
  import opened Lifecycle
  import opened NoLeak

  /** Nothing observed is ready; reads and creations succeed, the id and the count are written. Whatever becomes of
      updates, deletions and hash writes. */
  ghost predicate NeverReady(o: Oracle) {
    && o.get != GetError && (o.get.Got? ==> !IsReady(o.get.view))
    && (forall r :: r in o.polls && r.Got? ==> !IsReady(r.view))
    && o.create == Fine && o.idWrite == Landed && o.countWrite != Refused
  }

  /** The sync gets as far as the load balancer: not declined, something to serve, and able to create. */
  predicate Served(c: Ctx, st: State, want: seq<Listener>) {
    && !ShouldSkip(c, st.anns) && !c.deleting && Validated(want)
    && !(FipEnabled(c, st.anns) && c.cfg.fipNetworkId == "")
  }

  ghost predicate Hopeless(c: Ctx, st: State, e: Event) {
    match e
    case Ensure(cfg, deleting, want, o) =>
      Served(c.(cfg := cfg, deleting := deleting), st, want) && NeverReady(o) && FreshId(st.server, o)
    case UpdateHosts(_, _, _) => true
    case Annotate(_, _) => true
    case Vanish(_) => true
    case EnsureDeleted(_, _) => false
    case Restart => false
  }

  /** Where the service stands after n such syncs: 11 of them to each creation, none after the 33rd. */
  ghost predicate Stage(c: Ctx, st: State, n: nat) {
    var p := if n <= 33 then n - 1 else 32;
    && OnRecord(st.server)
    && (Ann(st.anns, IdKey) == "" <==> n == 0)
    && (n > 0 ==> Count(st.anns) == 1 + p / 11 && Retries(st.retries, c.uid) == p % 11)
  }

  lemma {:induction false} NeverPolled(polls: seq<GetReply>, fip: bool)
    requires forall r :: r in polls && r.Got? ==> !IsReady(r.view)
    ensures Poll(polls, fip).None?
  {
    if polls != [] && !Decisive(polls[0], fip) {
      NeverPolled(polls[1..], fip);
    }
  }

  lemma CreationNamed(c: Ctx, want: seq<Listener>, st: State, o: Oracle, key: string, count: int)
    requires OnRecord(st.server) && FreshId(st.server, o) && NeverReady(o)
    requires !(FipEnabled(c, st.anns) && c.cfg.fipNetworkId == "")
    requires MIN_INT64 <= count <= MAX_INT64
    ensures var r := CreateStep(c, st.anns, want, st, o, key, count);
            && OnRecord(r.st.server) && Ann(r.st.anns, IdKey) != "" && Count(r.st.anns) == count
            && Retries(r.st.retries, c.uid) == 0 && r.creates == [key] && r.out == Failed(NotReady)
  {
    CreateStepAnns(c, st.anns, want, st, o, key, count);
    CreationLives(st.server, key, want, o, "");
    NeverPolled(o.polls, FipEnabled(c, st.anns));
  }

  lemma RecreationNamed(c: Ctx, want: seq<Listener>, st: State, o: Oracle)
    requires OnRecord(st.server) && FreshId(st.server, o) && NeverReady(o)
    requires !(FipEnabled(c, st.anns) && c.cfg.fipNetworkId == "")
    requires 0 <= Count(st.anns) < MAX_CREATES
    ensures var r := RecreateStep(c, st.anns, want, st, o);
            && OnRecord(r.st.server) && Ann(r.st.anns, IdKey) != "" && Count(r.st.anns) == Count(st.anns) + 1
            && Retries(r.st.retries, c.uid) == 0 && |r.creates| == 1 && r.out == Failed(NotReady)
  {
    RemovalLives(st.server, Ann(st.anns, IdKey), o.delete, "");
    var gone := st.(server := Removal(st.server, Ann(st.anns, IdKey), o.delete));
    CreationNamed(c, want, gone, o, KeyFor(c, Count(st.anns) + 1), Count(st.anns) + 1);
  }

  lemma WaitingCounts(c: Ctx, want: seq<Listener>, st: State, o: Oracle)
    requires OnRecord(st.server) && NeverReady(o) && Retries(st.retries, c.uid) < MAX_RETRIES
    ensures var r := NotReadyStep(c, st.anns, want, st, o);
            && Quiet(st, r.st) && r.creates == [] && r.out.Failed? && r.out != Failed(GaveUp)
            && Retries(r.st.retries, c.uid) == Retries(st.retries, c.uid) + 1
  {
    WaitingIsQuiet(c, want, st, o);
    NeverPolled(o.polls, FipEnabled(c, st.anns));
  }

  lemma StageArithmetic(n: nat)
    requires 0 < n <= 33
    ensures var p := n - 1;
            && (p % 11 < 10 ==> n < 33 && (p + 1) / 11 == p / 11 && (p + 1) % 11 == p % 11 + 1)
            && (p % 11 == 10 ==> n == 11 || n == 22 || n == 33)
            && (n == 11 || n == 22 ==> (p + 1) / 11 == p / 11 + 1 && (p + 1) % 11 == 0)
  {
  }

  lemma StageWaits(c: Ctx, d: Ctx, want: seq<Listener>, st: State, o: Oracle, n: nat)
    requires d == c.(cfg := d.cfg, deleting := d.deleting) && NeverReady(o) && Stage(c, st, n) && 0 < n <= 33
    requires Retries(st.retries, c.uid) < MAX_RETRIES
    ensures var r := NotReadyStep(d, st.anns, want, st, o);
            && Stage(c, r.st, n + 1) && r.out.Failed? && r.out != Failed(GaveUp) && r.creates == []
            && n != 11 && n != 22 && n != 33
  {
    StageArithmetic(n);
    WaitingCounts(d, want, st, o);
  }

  /** Each sync moves one stage on: (3 - count, 10 - retries) goes down until it cannot. */
  lemma StageNext(c: Ctx, st: State, e: Event, n: nat)
    requires e.Ensure? && Hopeless(c, st, e) && Stage(c, st, n)
    ensures var r := EnsureStep(c.(cfg := e.cfg, deleting := e.deleting), st.anns, e.want, st, e.o);
            && Stage(c, r.st, n + 1) && r.out.Failed? && (r.out == Failed(GaveUp) <==> n >= 33)
            && |r.creates| == (if n == 0 || n == 11 || n == 22 then 1 else 0)
  {
    var d := c.(cfg := e.cfg, deleting := e.deleting);
    if n == 0 {
      CountInRange(st.anns);
      CreationNamed(d, e.want, st, e.o, NextKey(d, st.anns), 1);
    } else if Retries(st.retries, c.uid) < MAX_RETRIES {
      StageWaits(c, d, e.want, st, e.o, n);
    } else if n < 33 {
      StageArithmetic(n);
      RecreationNamed(d, e.want, st, e.o);
    }
  }

  lemma StageKept(c: Ctx, st: State, e: Event, n: nat)
    requires !e.Ensure? && Hopeless(c, st, e) && Stage(c, st, n)
    ensures Stage(c, Next(c, st, e), n)
  {
    OthersAreQuiet(c, st, e);
  }

  function Ensures(events: seq<Event>): nat {
    if events == [] then 0 else Ensures(events[..|events| - 1]) + if events[|events| - 1].Ensure? then 1 else 0
  }

  function StepOf(c: Ctx, st: State, e: Event): Step
    requires e.Ensure?
  {
    EnsureStep(c.(cfg := e.cfg, deleting := e.deleting), st.anns, e.want, st, e.o)
  }

  /** How many creations the first i events sent. */
  ghost function Creations(c: Ctx, states: seq<State>, events: seq<Event>, i: nat): nat
    requires |states| == |events| + 1 && i <= |events|
  {
    if i == 0 then 0
    else
      var sent := if events[i - 1].Ensure? then |StepOf(c, states[i - 1], events[i - 1]).creates| else 0;
      Creations(c, states, events, i - 1) + sent
  }

  lemma {:induction false} StageAt(c: Ctx, states: seq<State>, events: seq<Event>, i: nat)
    requires Run(c, states, events) && i <= |events|
    requires forall j :: 0 <= j < |events| ==> Hopeless(c, states[j], events[j])
    requires OnRecord(states[0].server) && Ann(states[0].anns, IdKey) == ""
    ensures var n := Ensures(events[..i]);
            && Stage(c, states[i], n)
            && Creations(c, states, events, i)
                 == (if n == 0 then 0 else if n <= 11 then 1 else if n <= 22 then 2 else 3)
  {
    if i > 0 {
      StageAt(c, states, events, i - 1);
      TakeNext(events, i - 1);
      if events[i - 1].Ensure? {
        StageNext(c, states[i - 1], events[i - 1], Ensures(events[..i - 1]));
      } else {
        StageKept(c, states[i - 1], events[i - 1], Ensures(events[..i - 1]));
      }
    }
  }

  /** Exactly three creations are ever sent, every sync fails, and the 34th and all later ones say so for good,
      even if the listeners change each time, updates fail or hosts are updated in between. */
  lemma BoundedGiveUp(c: Ctx, states: seq<State>, events: seq<Event>, i: nat)
    requires Run(c, states, events) && i < |events|
    requires forall j :: 0 <= j < |events| ==> Hopeless(c, states[j], events[j])
    requires OnRecord(states[0].server) && Ann(states[0].anns, IdKey) == ""
    requires events[i].Ensure?
    ensures var out := StepOf(c, states[i], events[i]).out;
            out.Failed? && (out == Failed(GaveUp) <==> Ensures(events[..i]) + 1 >= MAX_CREATES * (MAX_RETRIES + 1) + 1)
    ensures Creations(c, states, events, i) <= MAX_CREATES
    ensures Ensures(events[..i]) > 2 * (MAX_RETRIES + 1) ==> Creations(c, states, events, i) == MAX_CREATES
  {
    StageAt(c, states, events, i);
    StageNext(c, states[i], events[i], Ensures(events[..i]));
  }
}
