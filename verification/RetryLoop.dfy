/** `retryOnFailure`: one call against the load balancer API with bounded retries. */
module RetryLoop {
  import opened Text
  import opened Backoff

  datatype Code = OK | Canceled | Unknown | InvalidArgument | DeadlineExceeded | NotFound
                | AlreadyExists | PermissionDenied | Unavailable | OtherCode(number: int)

  // Coded: `status.FromError` finds a gRPC status in the error. Plain: it does not.
  datatype RpcError = Plain(text: string) | Coded(code: Code, text: string)

  datatype Link = LinkReady | LinkNotReady(callerDone: bool)

  datatype Reply = Answered | Refused(error: RpcError)

  /** What the outside world does to one attempt. Each flag is one look at the caller's context. */
  datatype Attempt = Attempt(cancelledInBackoff: bool, draw: int, link: Link, reply: Reply, callerDone: bool)

  datatype Cause = NotConnected | UnknownError(error: RpcError) | Transient(error: RpcError)

  datatype Outcome = Success | CallerDone | Rejected(error: RpcError) | Panicked
                   | Exhausted(attempts: int, last: Option<Cause>)

  datatype Verdict = Stop(outcome: Outcome) | Continue(cause: Cause)

  predicate Terminal(c: Code) {
    c == NotFound || c == AlreadyExists || c == InvalidArgument || c == PermissionDenied
  }

  function JudgeReply(a: Attempt): Verdict {
    match a.reply
    case Answered => Stop(Success)
    case Refused(e) =>
      if a.callerDone then Stop(CallerDone)
      else match e
        case Plain(_) => Continue(UnknownError(e))
        case Coded(c, _) =>
          if c == OK then Stop(Success)
          else if Terminal(c) then Stop(Rejected(e))
          else Continue(Transient(e))
  }

  function Judge(base: int, i: nat, a: Attempt): Verdict
    requires ValidDraw(base, i, a.draw)
  {
    if i > 0 && CalculateBackoff(base, i, a.draw).Panic? then Stop(Panicked)
    else if i > 0 && a.cancelledInBackoff then Stop(CallerDone)
    else if a.link.LinkNotReady? then
      if a.link.callerDone then Stop(CallerDone) else Continue(NotConnected)
    else JudgeReply(a)
  }

  ghost predicate ValidScript(base: int, max: int, script: seq<Attempt>) {
    |script| > max && forall i :: 0 <= i < |script| ==> ValidDraw(base, i, script[i].draw)
  }

  function Retry(base: int, max: int, script: seq<Attempt>, i: nat, last: Option<Cause>): Outcome
    requires ValidScript(base, max, script)
    decreases max + 1 - i
  {
    if i > max then Exhausted(max + 1, last)
    else match Judge(base, i, script[i])
      case Stop(o) => o
      case Continue(c) => Retry(base, max, script, i + 1, Some(c))
  }

  function Max0(n: int): nat { if n > 0 then n else 0 }

  // ---- What an attempt means, told from what happened in it ----

  /** The random draw has no positive range. */
  predicate PanicsAt(base: int, i: nat) {
    i > 0 && JitterBound(base, i) <= 0
  }

  /** The wait before the attempt ends normally and the connection is ready: the request is sent. */
  predicate Reaches(base: int, i: nat, a: Attempt) {
    !PanicsAt(base, i) && !(i > 0 && a.cancelledInBackoff) && a.link.LinkReady?
  }

  /** The attempt reached the server, or the server answered with a status that carries code OK. */
  predicate Succeeds(i: nat, a: Attempt) {
    && (i > 0 ==> !a.cancelledInBackoff)
    && a.link.LinkReady?
    && (a.reply.Answered? || (!a.callerDone && a.reply.error.Coded? && a.reply.error.code == OK))
  }

  predicate RejectedOutright(i: nat, a: Attempt, e: RpcError) {
    && (i > 0 ==> !a.cancelledInBackoff)
    && a.link.LinkReady? && !a.callerDone
    && a.reply == Refused(e) && e.Coded? && e.code in {NotFound, AlreadyExists, InvalidArgument, PermissionDenied}
  }

  /** While the caller is still there, the connection is not ready, or the call fails without a status or with a code
      that neither reports success nor blames the request. */
  predicate IsTransient(i: nat, a: Attempt) {
    && (i > 0 ==> !a.cancelledInBackoff)
    && if a.link.LinkNotReady? then !a.link.callerDone
       else
         && a.reply.Refused? && !a.callerDone
         && (a.reply.error.Coded? ==>
               a.reply.error.code !in {OK, NotFound, AlreadyExists, InvalidArgument, PermissionDenied})
  }

  /** The caller's context is found done: in the wait, instead of a ready connection, or after a failed call. */
  predicate GivesUp(i: nat, a: Attempt) {
    || (i > 0 && a.cancelledInBackoff)
    || (a.link.LinkNotReady? && a.link.callerDone)
    || (a.link.LinkReady? && a.reply.Refused? && a.callerDone)
  }

  function CauseOf(i: nat, a: Attempt): Cause
    requires IsTransient(i, a)
  {
    if a.link.LinkNotReady? then NotConnected
    else if a.reply.error.Plain? then UnknownError(a.reply.error)
    else Transient(a.reply.error)
  }

  lemma JudgeMeaning(base: int, i: nat, a: Attempt)
    requires ValidDraw(base, i, a.draw)
    ensures Judge(base, i, a) == Stop(Panicked) <==> PanicsAt(base, i)
    ensures Judge(base, i, a) == Stop(Success) <==> !PanicsAt(base, i) && Succeeds(i, a)
    ensures forall e :: Judge(base, i, a) == Stop(Rejected(e)) <==> !PanicsAt(base, i) && RejectedOutright(i, a, e)
    ensures Judge(base, i, a) == Stop(CallerDone) <==> !PanicsAt(base, i) && GivesUp(i, a)
    ensures Judge(base, i, a).Continue? <==> !PanicsAt(base, i) && IsTransient(i, a)
    ensures Judge(base, i, a).Continue? ==> Judge(base, i, a).cause == CauseOf(i, a)
    ensures !(Judge(base, i, a).Stop? && Judge(base, i, a).outcome.Exhausted?)
  {
  }

  /** Attempts before `k` all leave the loop running. */
  ghost predicate PassesUntil(base: int, script: seq<Attempt>, k: nat)
    requires k <= |script|
  {
    forall j :: 0 <= j < k ==> !PanicsAt(base, j) && IsTransient(j, script[j])
  }

  /** How many of the first n attempts send a request ... */
  ghost function Sent(base: int, script: seq<Attempt>, n: nat): nat
    requires n <= |script|
  {
    if n == 0 then 0 else Sent(base, script, n - 1) + if Reaches(base, n - 1, script[n - 1]) then 1 else 0
  }

  /** ... and the delays before them: none before the first. */
  ghost function Delays(base: int, max: int, script: seq<Attempt>, n: nat): int
    requires ValidScript(base, max, script) && n <= |script|
  {
    if n <= 1 then 0
    else
      var delay := CalculateBackoff(base, n - 1, script[n - 1].draw);
      Delays(base, max, script, n - 1) + if delay.Delay? then delay.ns else 0
  }

  /** How many attempts are started, from attempt i on: up to the first that is not transient. */
  ghost function Tried(base: int, max: int, script: seq<Attempt>, i: nat): nat
    requires |script| > max
    decreases max + 1 - i
  {
    if i > max then i
    else if PanicsAt(base, i) || !IsTransient(i, script[i]) then i + 1
    else Tried(base, max, script, i + 1)
  }

  method RetryOnFailure(base: int, max: int, script: seq<Attempt>)
    returns (outcome: Outcome, calls: nat, waited: int, ghost tried: nat)
    requires ValidScript(base, max, script)
    ensures outcome == Retry(base, max, script, 0, None)
    ensures tried == Tried(base, max, script, 0) <= |script|
    ensures calls == Sent(base, script, tried) && waited == Delays(base, max, script, tried)
  {
    calls, waited, tried := 0, 0, 0;
    var last: Option<Cause> := None;
    var attempt := 0;
    while attempt <= max
      invariant 0 <= attempt <= Max0(max + 1) && tried == attempt
      invariant Tried(base, max, script, 0) == Tried(base, max, script, attempt)
      invariant calls == Sent(base, script, attempt) && waited == Delays(base, max, script, attempt)
      invariant Retry(base, max, script, 0, None) == Retry(base, max, script, attempt, last)
      decreases max + 1 - attempt
    {
      var a := script[attempt];
      tried := attempt + 1;
      if attempt > 0 {
        var delay := CalculateBackoff(base, attempt, a.draw);
        if delay.Panic? {
          return Panicked, calls, waited, tried;
        }
        waited := waited + delay.ns;
        if a.cancelledInBackoff {
          return CallerDone, calls, waited, tried;
        }
      }
      if a.link.LinkNotReady? {
        if a.link.callerDone {
          return CallerDone, calls, waited, tried;
        }
        last := Some(NotConnected);
        attempt := attempt + 1;
        continue;
      }
      calls := calls + 1;
      if a.reply.Answered? {
        return Success, calls, waited, tried;
      }
      if a.callerDone {
        return CallerDone, calls, waited, tried;
      }
      var e := a.reply.error;
      if e.Plain? {
        last := Some(UnknownError(e));
      } else if e.code == OK {
        return Success, calls, waited, tried;
      } else if Terminal(e.code) {
        return Rejected(e), calls, waited, tried;
      } else {
        last := Some(Transient(e));
      }
      attempt := attempt + 1;
    }
    return Exhausted(max + 1, last), calls, waited, tried;
  }

  /** All attempts before the last one started are transient, and unless they are used up that one is not. */
  lemma {:induction false} TriedMeaning(base: int, max: int, script: seq<Attempt>, i: nat)
    requires ValidScript(base, max, script) && i <= Max0(max + 1) && PassesUntil(base, script, i)
    ensures var n := Tried(base, max, script, i);
            && i <= n <= Max0(max + 1) && (n > 0 ==> PassesUntil(base, script, n - 1))
            && (n < Max0(max + 1) ==> n > 0 && !PassesUntil(base, script, n))
    decreases max + 1 - i
  {
    if i <= max && !PanicsAt(base, i) && IsTransient(i, script[i]) {
      TriedMeaning(base, max, script, i + 1);
    }
  }

  /** At most one request for each, and a wait of at most five seconds before each but the first. */
  lemma {:induction false} Effort(base: int, max: int, script: seq<Attempt>, n: nat)
    requires ValidScript(base, max, script) && n <= Max0(max + 1)
    ensures Sent(base, script, n) <= n
    ensures Delays(base, max, script, n) <= (if n > 0 then n - 1 else 0) * MAX_DELAY <= Max0(max) * MAX_DELAY
  {
    if n > 0 {
      Effort(base, max, script, n - 1);
      assert n > 1 ==> (n - 1) * MAX_DELAY == (n - 2) * MAX_DELAY + MAX_DELAY;
    }
  }

  /** The first attempt that is not transient alone fixes the result ... */
  lemma {:induction false} FirstDecisiveAttempt(base: int, max: int, script: seq<Attempt>, k: nat, i: nat,
                                                last: Option<Cause>)
    requires ValidScript(base, max, script) && i <= k <= max
    requires PassesUntil(base, script, k) && !PassesUntil(base, script, k + 1)
    ensures var r := Retry(base, max, script, i, last);
            && (r == Panicked <==> PanicsAt(base, k))
            && (r == Success <==> !PanicsAt(base, k) && Succeeds(k, script[k]))
            && (r == CallerDone <==> !PanicsAt(base, k) && GivesUp(k, script[k]))
            && (forall e :: r == Rejected(e) <==> !PanicsAt(base, k) && RejectedOutright(k, script[k], e))
            && !r.Exhausted?
    decreases k - i
  {
    if i < k {
      JudgeMeaning(base, i, script[i]);
      FirstDecisiveAttempt(base, max, script, k, i + 1, Some(Judge(base, i, script[i]).cause));
    } else {
      JudgeMeaning(base, k, script[k]);
    }
  }

  /** ... and without one the last transient cause is reported after RetryMax + 1 attempts. */
  lemma {:induction false} AllTransient(base: int, max: int, script: seq<Attempt>, i: nat, last: Option<Cause>)
    requires ValidScript(base, max, script) && i <= Max0(max + 1)
    requires PassesUntil(base, script, Max0(max + 1))
    ensures Retry(base, max, script, i, last)
         == Exhausted(max + 1, if i > max then last else Some(CauseOf(max, script[max])))
    decreases max + 1 - i
  {
    if i <= max {
      JudgeMeaning(base, i, script[i]);
      AllTransient(base, max, script, i + 1, Some(CauseOf(i, script[i])));
    }
  }

  lemma {:induction false} FindDecisive(base: int, max: int, script: seq<Attempt>, n: nat) returns (k: nat)
    requires ValidScript(base, max, script) && n <= Max0(max + 1)
    ensures k <= n && PassesUntil(base, script, k)
    ensures k < n ==> !PassesUntil(base, script, k + 1)
  {
    if n == 0 {
      k := 0;
    } else {
      k := FindDecisive(base, max, script, n - 1);
      if k == n - 1 && !PanicsAt(base, k) && IsTransient(k, script[k]) {
        k := n;
      }
    }
  }

  /** For every RetryMax: nil exactly when some attempt succeeds before any that is not transient; a terminal code is
      returned, the caller's own end is, or the draw panics, exactly when that comes first; and exactly when every
      attempt is transient the last of their causes is. */
  lemma RetrySemantics(base: int, max: int, script: seq<Attempt>)
    requires ValidScript(base, max, script)
    ensures var r := Retry(base, max, script, 0, None);
            && (r == Success <==> exists k :: 0 <= k <= max && PassesUntil(base, script, k)
                                              && !PanicsAt(base, k) && Succeeds(k, script[k]))
            && (forall e :: r == Rejected(e) <==>
                  exists k :: 0 <= k <= max && PassesUntil(base, script, k)
                              && !PanicsAt(base, k) && RejectedOutright(k, script[k], e))
            && (r == CallerDone <==> exists k :: 0 <= k <= max && PassesUntil(base, script, k)
                                                 && !PanicsAt(base, k) && GivesUp(k, script[k]))
            && (r == Panicked <==> exists k :: 0 <= k <= max && PassesUntil(base, script, k) && PanicsAt(base, k))
            && (r.Exhausted? <==> PassesUntil(base, script, Max0(max + 1)))
            && (r.Exhausted? ==>
                  r == Exhausted(max + 1, if max < 0 then None else Some(CauseOf(max, script[max]))))
  {
    var k := FindDecisive(base, max, script, Max0(max + 1));
    forall i | 0 <= i <= max && !PanicsAt(base, i) && IsTransient(i, script[i])
      ensures !Succeeds(i, script[i]) && !GivesUp(i, script[i])
      ensures forall e :: !RejectedOutright(i, script[i], e)
    {
      JudgeMeaning(base, i, script[i]);
    }
    if k <= max {
      FirstDecisiveAttempt(base, max, script, k, 0, None);
    } else {
      AllTransient(base, max, script, 0, None);
    }
  }

  /** Inside the overflow-free range, as with the default RetryMax of 3, no draw ever panics. */
  lemma NoPanic(base: int, max: int, script: seq<Attempt>)
    requires ValidScript(base, max, script) && base >= 1
    requires forall i :: 1 <= i <= max ==> Safe(base, i)
    ensures Retry(base, max, script, 0, None) != Panicked
  {
    RetrySemantics(base, max, script);
    forall i | 1 <= i <= max ensures !PanicsAt(base, i) {
      assert Safe(base, i);
      SafeDelay(base, i, script[i].draw);
    }
  }
}
