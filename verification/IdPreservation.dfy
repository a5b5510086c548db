/** A server that reconciles an update by id, fed with merged listeners. */
module IdPreservation {
  import opened Text
  import opened Seqs
  import opened Endpoints
  import opened Listeners
  import opened ListenerIds

  // ---- Content apart from ids ----

  function EraseRule(r: Rule): Rule {
    r.(id := "", backends := seq(|r.backends|, i requires 0 <= i < |r.backends| => r.backends[i].(id := "")))
  }

  function Erase(l: Listener): Listener {
    l.(id := "", rules := seq(|l.rules|, i requires 0 <= i < |l.rules| => EraseRule(l.rules[i])))
  }

  /** The same listeners up to ids. */
  ghost predicate Alike(a: seq<Listener>, b: seq<Listener>) {
    |a| == |b| && forall i :: 0 <= i < |a| ==> Erase(a[i]) == Erase(b[i])
  }

  lemma GraftKeepsContent(want: Listener, have: Option<Listener>)
    ensures Erase(Graft(want, have)) == Erase(want) && ListenerKey(Graft(want, have)) == ListenerKey(want)
  {
    var g := Graft(want, have);
    if have.Some? && |want.rules| == 1 && |have.value.rules| == 1 {
      var r := GraftRule(want.rules[0], have.value.rules[0]);
      assert EraseRule(r).backends == EraseRule(want.rules[0]).backends;
      assert EraseRule(r) == EraseRule(want.rules[0]);
    }
    assert Erase(g).rules == Erase(want).rules;
  }

  lemma MergeKeepsContent(desired: seq<Listener>, current: seq<Listener>)
    ensures Alike(Merge(desired, current), desired)
  {
    forall i | 0 <= i < |desired| ensures Erase(Merge(desired, current)[i]) == Erase(desired[i]) {
      GraftKeepsContent(desired[i], Latest(current, ListenerKey(desired[i])));
    }
  }

  lemma {:induction false} LatestAt(current: seq<Listener>, j: nat)
    requires j < |current| && forall k :: j < k < |current| ==> ListenerKey(current[k]) != ListenerKey(current[j])
    ensures Latest(current, ListenerKey(current[j])) == Some(current[j])
  {
    if j < |current| - 1 {
      LatestAt(current[..|current| - 1], j);
    }
  }

  /** Which ids a merge sends: those of the last current listener with the same port and protocol, of its rule where
      both sides have one, and of the rule's backend where both have one. Everything else keeps the ids it came with. */
  lemma GraftedIds(desired: seq<Listener>, current: seq<Listener>, i: nat, j: nat)
    requires i < |desired| && j < |current| && ListenerKey(current[j]) == ListenerKey(desired[i])
    requires forall k :: j < k < |current| ==> ListenerKey(current[k]) != ListenerKey(current[j])
    ensures var m, want, have := Merge(desired, current)[i], desired[i], current[j];
            && m.id == have.id && |m.rules| == |want.rules|
            && (if |want.rules| == 1 && |have.rules| == 1 then
                  && m.rules[0].id == have.rules[0].id && |m.rules[0].backends| == |want.rules[0].backends|
                  && (if |want.rules[0].backends| == 1 && |have.rules[0].backends| == 1 then
                        m.rules[0].backends[0].id == have.rules[0].backends[0].id
                      else m.rules[0].backends == want.rules[0].backends)
                else m.rules == want.rules)
  {
    LatestAt(current, j);
  }

  /** ... and a listener not served yet is sent as it is. */
  lemma NothingGrafted(desired: seq<Listener>, current: seq<Listener>, i: nat)
    requires i < |desired| && forall c :: c in current ==> ListenerKey(c) != ListenerKey(desired[i])
    ensures Merge(desired, current)[i] == desired[i]
  {
    LatestIsThere(current, ListenerKey(desired[i]));
  }

  // ---- The server ----

  ghost predicate BackendsKept(have: seq<Backend>, sent: seq<Backend>, got: seq<Backend>) {
    && |got| == |sent|
    && forall i, h :: 0 <= i < |sent| && h in have && sent[i].id == h.id ==> got[i].id == h.id
  }

  ghost predicate RulesKept(have: seq<Rule>, sent: seq<Rule>, got: seq<Rule>) {
    && |got| == |sent|
    && forall i, h :: 0 <= i < |sent| && h in have && sent[i].id == h.id ==>
         got[i].id == h.id && BackendsKept(h.backends, sent[i].backends, got[i].backends)
  }

  ghost predicate KnownId(current: seq<Listener>, id: string) {
    exists c :: c in current && c.id == id
  }

  /** The update contract: what carries a known id keeps it and is updated in place, what does not is created
      under a new id, and what is missing from the request is removed. */
  ghost predicate Reconciled(current: seq<Listener>, sent: seq<Listener>, got: seq<Listener>) {
    && Alike(got, sent)
    && (forall i, c :: 0 <= i < |sent| && c in current && sent[i].id == c.id ==>
          got[i].id == c.id && RulesKept(c.rules, sent[i].rules, got[i].rules))
    && (forall i :: 0 <= i < |sent| && !KnownId(current, sent[i].id) ==> !KnownId(current, got[i].id))
  }

  function LongerThanAll(current: seq<Listener>): (id: string)
    ensures forall c :: c in current ==> |c.id| < |id|
  {
    if current == [] then "x"
    else
      var id := LongerThanAll(current[1..]);
      assert current == [current[0]] + current[1..];
      current[0].id + id
  }

  /** What a server holds: its ids are not empty and not shared, and a port and protocol is served once. */
  ghost predicate WellKept(current: seq<Listener>) {
    && (forall c :: c in current ==> c.id != "")
    && (forall i, j :: 0 <= i < j < |current| ==> current[i].id != current[j].id)
    && UniqueKeys(current)
  }

  ghost predicate UniqueKeys(ls: seq<Listener>) {
    forall i, j :: 0 <= i < j < |ls| ==> ListenerKey(ls[i]) != ListenerKey(ls[j])
  }

  ghost predicate SentOnce(ls: seq<Listener>) {
    forall i, j :: 0 <= i < j < |ls| && ls[i].id == ls[j].id ==> ls[i].id == ""
  }

  function Padding(n: nat): (s: string)
    ensures |s| == n
  {
    if n == 0 then "" else Padding(n - 1) + "x"
  }

  /** Some server can keep the contract on every request, and hold its listeners well while it is asked properly. */
  lemma ContractCanBeMet(current: seq<Listener>, sent: seq<Listener>) returns (got: seq<Listener>)
    ensures Reconciled(current, sent, got)
    ensures WellKept(current) && UniqueKeys(sent) && SentOnce(sent) ==> WellKept(got)
  {
    var long := LongerThanAll(current);
    got := seq(|sent|, i requires 0 <= i < |sent| =>
      if exists c :: c in current && c.id == sent[i].id then sent[i] else sent[i].(id := long + Padding(i)));
    forall i | 0 <= i < |sent| ensures Erase(got[i]) == Erase(sent[i]) {
      assert Erase(got[i]).rules == Erase(sent[i]).rules;
    }
    forall i, j | 0 <= i < j < |sent| && WellKept(current) && SentOnce(sent) ensures got[i].id != got[j].id {
      assert KnownId(current, sent[i].id) ==> |sent[i].id| < |long|;
      assert KnownId(current, sent[j].id) ==> |sent[j].id| < |long|;
      assert |long + Padding(i)| != |long + Padding(j)|;
    }
  }

  ghost predicate NoIds(desired: seq<Listener>) {
    forall i :: 0 <= i < |desired| ==> desired[i].id == ""
  }

  lemma {:induction false} LatestIsThere(current: seq<Listener>, key: string)
    ensures Latest(current, key).Some? ==>
              Latest(current, key).value in current && ListenerKey(Latest(current, key).value) == key
    ensures Latest(current, key).None? ==> forall c :: c in current ==> ListenerKey(c) != key
  {
    if current != [] {
      LatestIsThere(current[..|current| - 1], key);
      JoinLast(current);
    }
  }

  lemma LatestIsTheOne(current: seq<Listener>, c: Listener)
    requires WellKept(current) && c in current
    ensures Latest(current, ListenerKey(c)) == Some(c)
  {
    LatestIsThere(current, ListenerKey(c));
    var i :| 0 <= i < |current| && current[i] == c;
    var l := Latest(current, ListenerKey(c)).value;
    var j :| 0 <= j < |current| && current[j] == l;
    assert i == j;
  }

  ghost predicate SingleRule(l: Listener) {
    |l.rules| == 1
  }

  ghost predicate SingleBackend(l: Listener) {
    |l.rules| == 1 && |l.rules[0].backends| == 1
  }

  /** A listener whose port and protocol is in both lists keeps its id, and its rule and backend theirs
      where both sides have the one-rule-one-backend shape. */
  lemma IdsKept(desired: seq<Listener>, current: seq<Listener>, got: seq<Listener>, i: nat, c: Listener)
    requires WellKept(current) && Reconciled(current, Merge(desired, current), got)
    requires i < |desired| && c in current && ListenerKey(desired[i]) == ListenerKey(c)
    ensures i < |got| && got[i].id == c.id && |got[i].rules| == |desired[i].rules|
    ensures SingleRule(desired[i]) && SingleRule(c) ==> got[i].rules[0].id == c.rules[0].id
    ensures SingleBackend(desired[i]) && SingleBackend(c) ==>
              |got[i].rules[0].backends| == 1 && got[i].rules[0].backends[0].id == c.rules[0].backends[0].id
  {
    LatestIsTheOne(current, c);
    var m := Merge(desired, current)[i];
    assert m.id == c.id && got[i].id == c.id && RulesKept(c.rules, m.rules, got[i].rules);
    if SingleRule(desired[i]) && SingleRule(c) {
      assert c.rules[0] in c.rules && m.rules[0].id == c.rules[0].id;
      assert got[i].rules[0].id == c.rules[0].id;
      assert BackendsKept(c.rules[0].backends, m.rules[0].backends, got[i].rules[0].backends);
      if SingleBackend(desired[i]) && SingleBackend(c) {
        assert c.rules[0].backends[0] in c.rules[0].backends;
      }
    }
  }

  lemma KnownMeansDesired(desired: seq<Listener>, current: seq<Listener>, got: seq<Listener>, i: nat, c: Listener)
    requires WellKept(current) && NoIds(desired) && Reconciled(current, Merge(desired, current), got) && c in current
    requires i < |desired| && i < |got| && got[i].id == c.id
    ensures ListenerKey(desired[i]) == ListenerKey(c)
  {
    var m := Merge(desired, current);
    var have := Latest(current, ListenerKey(desired[i]));
    LatestIsThere(current, ListenerKey(desired[i]));
    assert KnownId(current, got[i].id) && !KnownId(current, "");
    assert m[i].id == if have.Some? then have.value.id else "";
    if have.Some? {
      SameIdSameListener(current, c, have.value);
    }
  }

  /** The content becomes the desired one, and a listener goes exactly when its port and protocol is no longer
      desired. */
  lemma OnlyUndesiredRemoved(desired: seq<Listener>, current: seq<Listener>, got: seq<Listener>, c: Listener)
    requires WellKept(current) && NoIds(desired) && Reconciled(current, Merge(desired, current), got) && c in current
    ensures Alike(got, desired)
    ensures KnownId(got, c.id) <==> exists i :: 0 <= i < |desired| && ListenerKey(desired[i]) == ListenerKey(c)
  {
    MergeKeepsContent(desired, current);
    if i :| 0 <= i < |desired| && ListenerKey(desired[i]) == ListenerKey(c) {
      IdsKept(desired, current, got, i, c);
      assert got[i] in got;
    }
    if g :| g in got && g.id == c.id {
      var i :| 0 <= i < |got| && got[i] == g;
      KnownMeansDesired(desired, current, got, i, c);
    }
  }

  lemma SameIdSameListener(current: seq<Listener>, a: Listener, b: Listener)
    requires WellKept(current) && a in current && b in current && a.id == b.id
    ensures a == b
  {
    var i :| 0 <= i < |current| && current[i] == a;
    var j :| 0 <= j < |current| && current[j] == b;
  }

  ghost predicate SendsTwice(m: seq<Listener>, i: int, j: int) {
    0 <= i < j < |m| && m[i].id == m[j].id && m[i].id != ""
  }

  ghost predicate ShareServedKey(desired: seq<Listener>, current: seq<Listener>, i: int, j: int) {
    && 0 <= i < j < |desired| && ListenerKey(desired[i]) == ListenerKey(desired[j])
    && exists c :: c in current && ListenerKey(c) == ListenerKey(desired[i])
  }

  /** An id is sent twice exactly where two desired listeners share a key the server already serves. */
  lemma NoIdSentTwice(desired: seq<Listener>, current: seq<Listener>, i: int, j: int)
    requires WellKept(current) && NoIds(desired)
    ensures SendsTwice(Merge(desired, current), i, j) <==> ShareServedKey(desired, current, i, j)
  {
    if 0 <= i < j < |desired| {
      var a, b := Latest(current, ListenerKey(desired[i])), Latest(current, ListenerKey(desired[j]));
      LatestIsThere(current, ListenerKey(desired[i]));
      LatestIsThere(current, ListenerKey(desired[j]));
      if a.Some? && b.Some? && a.value.id == b.value.id {
        SameIdSameListener(current, a.value, b.value);
      }
    }
  }

  /** So a merge of listeners with distinct keys sends each id once. */
  lemma MergeSendsOnce(desired: seq<Listener>, current: seq<Listener>)
    requires WellKept(current) && NoIds(desired) && UniqueKeys(desired)
    ensures UniqueKeys(Merge(desired, current)) && SentOnce(Merge(desired, current))
  {
    var m := Merge(desired, current);
    forall i, j | 0 <= i < j < |m|
      ensures ListenerKey(m[i]) != ListenerKey(m[j]) && (m[i].id == m[j].id ==> m[i].id == "")
    {
      GraftKeepsContent(desired[i], Latest(current, ListenerKey(desired[i])));
      GraftKeepsContent(desired[j], Latest(current, ListenerKey(desired[j])));
      NoIdSentTwice(desired, current, i, j);
    }
  }

  // ---- Sending what the server already has ----

  ghost predicate AllSingle(ls: seq<Listener>) {
    forall i :: 0 <= i < |ls| ==> SingleBackend(ls[i])
  }

  lemma AlikeMeansSame(got: Listener, c: Listener)
    requires Erase(got) == Erase(c) && got.id == c.id && SingleBackend(c)
    requires |got.rules| == 1 && |got.rules[0].backends| == 1
    requires got.rules[0].id == c.rules[0].id && got.rules[0].backends[0].id == c.rules[0].backends[0].id
    ensures got == c
  {
    assert Erase(got).rules[0] == Erase(c).rules[0];
    var x, y := got.rules[0], c.rules[0];
    assert EraseRule(x) == EraseRule(y) && EraseRule(x).backends[0] == EraseRule(y).backends[0];
    assert x.backends == [x.backends[0]] && y.backends == [y.backends[0]];
    assert got.rules == [x] && c.rules == [y];
  }

  /** An update with listeners the server already has, ids apart, changes nothing at all: not even an id. */
  lemma UnchangedUpdateIsNoOp(desired: seq<Listener>, current: seq<Listener>, got: seq<Listener>)
    requires WellKept(current) && AllSingle(current) && Alike(desired, current)
    requires Reconciled(current, Merge(desired, current), got)
    ensures got == current
  {
    MergeKeepsContent(desired, current);
    forall i | 0 <= i < |current| ensures got[i] == current[i] {
      var c := current[i];
      assert Erase(desired[i]) == Erase(c);
      assert |Erase(desired[i]).rules| == |Erase(c).rules| == 1;
      assert |Erase(desired[i]).rules[0].backends| == |Erase(c).rules[0].backends|;
      IdsKept(desired, current, got, i, c);
      assert Erase(got[i]) == Erase(desired[i]);
      AlikeMeansSame(got[i], c);
    }
  }

  /** What the controller builds has the shape the results above need, whatever the Service. */
  lemma BuiltShape(inp: Inputs, usable: Usable)
    ensures NoIds(ListenersOf(inp, usable)) && AllSingle(ListenersOf(inp, usable))
  {
  }
}
