/** Writing one annotation of a Service that others write at the same time. */
module OptimisticWrites {
  import opened Text
  import opened Seqs

  /** A stored Service: its annotations, None for a nil map, and everything else. */
  datatype Object = Object(anns: Option<map<string, string>>, rest: string)

  // A missing key reads as the empty string.
  function Look(o: Object, key: string): string {
    if o.anns.Some? && key in o.anns.value then o.anns.value[key] else ""
  }

  function Put(o: Object, key: string, value: string): Object {
    o.(anns := Some((if o.anns.Some? then o.anns.value else map[])[key := value]))
  }

  // LostRequest: nothing happens. LostResponse: the update is committed but reported as an error.
  datatype UpdateFault = NoFault | LostRequest | LostResponse

  /** What others do during one attempt: commits before the read and between read and update, and faults. */
  datatype Attempt = Attempt(before: seq<Object>, getFails: bool, between: seq<Object>, fault: UpdateFault)

  datatype Reply = Committed | Conflict | OtherError

  const ATTEMPTS := 5

  /** Every committed version, the last one current. */
  class VersionedStore {
    var history: seq<Object>

    constructor (first: Object)
      ensures history == [first]
    {
      history := [first];
    }

    method OthersCommit(writes: seq<Object>)
      modifies this
      ensures history == old(history) + writes
    {
      history := history + writes;
    }

    method Update(version: nat, latest: Object, fault: UpdateFault) returns (r: Reply)
      requires history != []
      modifies this
      ensures history == if fault != LostRequest && version == |old(history)| - 1 then old(history) + [latest]
                         else old(history)
      ensures r == if fault != NoFault then OtherError
                   else if version == |old(history)| - 1 then Committed else Conflict
    {
      r := if fault != NoFault then OtherError else if version == |history| - 1 then Committed else Conflict;
      if fault != LostRequest && version == |history| - 1 {
        history := history + [latest];
      }
    }
  }

  /** All that others commit during the first n attempts. */
  ghost function Foreign(script: nat -> Attempt, n: nat): seq<Object> {
    if n == 0 then [] else Foreign(script, n - 1) + script(n - 1).before + script(n - 1).between
  }

  /** The current version carries the annotation with this value. */
  predicate IsThere(history: seq<Object>, key: string, value: string) {
    && history != []
    && var anns := history[|history| - 1].anns;
       anns.Some? && (if key in anns.value then anns.value[key] == value else value == "")
  }

  /** The attempt is beaten: somebody commits between its read, which shows no such annotation, and its update. */
  ghost predicate Loses(read: seq<Object>, key: string, value: string, a: Attempt) {
    !a.getFails && !IsThere(read, key, value) && a.fault == NoFault && a.between != []
  }

  /** An attempt that is not beaten ends the loop: with an error if its read or its update fails, otherwise with the
      annotation in place. It commits unless there is nothing to do, somebody was faster or the request is lost. */
  ghost predicate Ends(read: seq<Object>, key: string, value: string, a: Attempt, r: Reply, at: nat) {
    var updates := !a.getFails && !IsThere(read, key, value);
    && !Loses(read, key, value, a)
    && r == (if a.getFails || (updates && a.fault != NoFault) then OtherError else Committed)
    && (at != 0 <==> updates && a.between == [] && a.fault != LostRequest)
  }

  // What others commit during an attempt: up to its update only if it gets there.
  ghost function During(read: seq<Object>, key: string, value: string, a: Attempt): seq<Object> {
    if a.getFails || IsThere(read, key, value) then a.before else a.before + a.between
  }

  // The versions attempt n reads the last one of, when all attempts before it lost.
  ghost function ReadIn(before: seq<Object>, script: nat -> Attempt, n: nat): seq<Object> {
    before + Foreign(script, n) + script(n).before
  }

  ghost predicate AllLose(before: seq<Object>, key: string, value: string, script: nat -> Attempt, n: nat) {
    forall i: nat :: i < n ==> Loses(ReadIn(before, script, i), key, value, script(i))
  }

  /** Attempt n is the first one not beaten, and ends the loop. */
  ghost predicate EndsIn(before: seq<Object>, key: string, value: string, script: nat -> Attempt, n: nat, r: Reply,
                         at: nat, foreign: seq<Object>) {
    var read := ReadIn(before, script, n);
    && AllLose(before, key, value, script, n) && Ends(read, key, value, script(n), r, at)
    && foreign == Foreign(script, n) + During(read, key, value, script(n))
  }

  /** The history grew by others' commits and, unless `at` is 0, by one of our own right at that version: the version
      just before it with one annotation put in. So it overwrote nobody. */
  ghost predicate Extends(before: seq<Object>, foreign: seq<Object>, at: nat, key: string, value: string,
                          after: seq<Object>) {
    if at == 0 then after == before + foreign
    else
      && |before| <= at < |after|
      && after[..at] + after[at + 1..] == before + foreign
      && after[at] == Put(after[at - 1], key, value)
  }

  lemma OwnCommit(before: seq<Object>, foreign: seq<Object>, key: string, value: string)
    requires before != []
    ensures var h := before + foreign;
            Extends(before, foreign, |h|, key, value, h + [Put(h[|h| - 1], key, value)])
  {
    var h := before + foreign;
    var own := Put(h[|h| - 1], key, value);
    assert (h + [own])[..|h|] + (h + [own])[|h| + 1..] == h;
  }

  lemma ExtendsLater(before: seq<Object>, earlier: seq<Object>, foreign: seq<Object>, at: nat, key: string,
                     value: string, after: seq<Object>)
    requires Extends(before + earlier, foreign, at, key, value, after)
    ensures Extends(before, earlier + foreign, at, key, value, after)
  {
    Assoc(before, earlier, foreign);
  }

  /** One attempt: read, compare, write back under the version read. */
  method TryOnce(store: VersionedStore, key: string, value: string, a: Attempt)
    returns (r: Reply, ghost at: nat, ghost seen: nat, ghost foreign: seq<Object>)
    requires store.history != []
    modifies store
    ensures Extends(old(store.history), foreign, at, key, value, store.history)
    ensures var read := old(store.history) + a.before;
            && foreign == During(read, key, value, a)
            && (r == Conflict <==> Loses(read, key, value, a)) && (r == Conflict ==> at == 0)
            && (r != Conflict ==> Ends(read, key, value, a, r, at))
    ensures r == Committed ==>
              |old(store.history)| - 1 <= seen < |store.history| && Look(store.history[seen], key) == value
    ensures r == Committed && at != 0 ==> seen == at
  {
    ghost var before := store.history;
    at, seen, foreign := 0, 0, a.before;
    store.OthersCommit(a.before);
    if a.getFails {
      return OtherError, at, seen, foreign;
    }
    var version := |store.history| - 1;
    var latest := store.history[version];
    if latest.anns.Some? && Look(latest, key) == value {
      return Committed, 0, version, foreign;
    }
    store.OthersCommit(a.between);
    Assoc(before, a.before, a.between);
    foreign := a.before + a.between;
    r := store.Update(version, Put(latest, key, value), a.fault);
    if |store.history| > |before + foreign| {
      at, seen := version + 1, version + 1;
      OwnCommit(before, foreign, key, value);
    }
  }

  lemma AttemptEnds(before: seq<Object>, key: string, value: string, script: nat -> Attempt, i: nat, r: Reply, at: nat,
                    during: seq<Object>)
    requires AllLose(before, key, value, script, i)
    requires Ends(ReadIn(before, script, i), key, value, script(i), r, at)
    requires during == During(ReadIn(before, script, i), key, value, script(i))
    ensures EndsIn(before, key, value, script, i, r, at, Foreign(script, i) + during)
  {
  }

  lemma AttemptLoses(before: seq<Object>, key: string, value: string, script: nat -> Attempt, i: nat)
    requires AllLose(before, key, value, script, i)
    requires Loses(ReadIn(before, script, i), key, value, script(i))
    ensures AllLose(before, key, value, script, i + 1)
    ensures Foreign(script, i) + During(ReadIn(before, script, i), key, value, script(i)) == Foreign(script, i + 1)
  {
    Assoc(Foreign(script, i), script(i).before, script(i).between);
  }

  /** `ensureServiceAnnotation` with the default retry on conflict. */
  method EnsureServiceAnnotation(store: VersionedStore, key: string, value: string, script: nat -> Attempt)
    returns (r: Reply, ghost at: nat, ghost seen: nat, ghost foreign: seq<Object>)
    requires store.history != []
    modifies store
    ensures Extends(old(store.history), foreign, at, key, value, store.history)
    ensures if AllLose(old(store.history), key, value, script, 5) then
              r == Conflict && at == 0 && foreign == Foreign(script, 5)
            else
              exists n: nat :: n < 5 && EndsIn(old(store.history), key, value, script, n, r, at, foreign)
    ensures r == Committed ==>
              |old(store.history)| - 1 <= seen < |store.history| && Look(store.history[seen], key) == value
    ensures r == Committed && at != 0 ==> seen == at
  {
    ghost var before := store.history;
    ghost var earlier: seq<Object> := [];
    r, at, seen, foreign := Conflict, 0, 0, [];
    for i := 0 to ATTEMPTS
      invariant earlier == Foreign(script, i) && store.history == before + earlier
      invariant r == Conflict && at == 0 && foreign == earlier && AllLose(before, key, value, script, i)
    {
      r, at, seen, foreign := TryOnce(store, key, value, script(i));
      ExtendsLater(before, earlier, foreign, at, key, value, store.history);
      if r != Conflict {
        AttemptEnds(before, key, value, script, i, r, at, foreign);
        foreign := earlier + foreign;
        return;
      }
      AttemptLoses(before, key, value, script, i);
      foreign := earlier + foreign;
      earlier := foreign;
    }
  }

  /** What one's own commit can have changed: nothing but the one annotation, relative to the version just before it. */
  lemma OthersSurvive(before: seq<Object>, foreign: seq<Object>, at: nat, key: string, value: string,
                      after: seq<Object>, other: string)
    requires Extends(before, foreign, at, key, value, after) && at > 0 && other != key && before != []
    ensures Look(after[at], other) == Look(after[at - 1], other) && after[at].rest == after[at - 1].rest
    ensures Look(after[at], key) == value
    ensures forall i :: 0 <= i < |before| ==> after[i] == before[i]
    ensures |after| == |before| + |foreign| + 1
  {
    forall i | 0 <= i < |before| ensures after[i] == before[i] {
      assert (after[..at] + after[at + 1..])[i] == after[i];
    }
    assert |after[..at] + after[at + 1..]| == |after| - 1;
  }
}
