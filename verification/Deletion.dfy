/** Looking a load balancer up by name over pages of a listing. */
module Deletion {
  import opened Text

  datatype Summary = Summary(id: string, name: string)

  /** The replies a listing gives page by page: `Last` has no next page token, `Broken` is a failed call. */
  datatype Chain = Last(page: seq<Summary>) | More(page: seq<Summary>, next: Chain) | Broken

  datatype DeleteReply = Accepted | AnsweredNotFound | Lost | AcceptedUnheard

  predicate TookEffect(r: DeleteReply) { r == Accepted || r == AcceptedUnheard }

  predicate DeleteSucceeds(r: DeleteReply) { r == Accepted || r == AnsweredNotFound }

  /** All summaries up to the end or the first failed call. */
  function Listed(pages: Chain): seq<Summary> {
    match pages
    case Last(page) => page
    case More(page, next) => page + Listed(next)
    case Broken => []
  }

  predicate Complete(pages: Chain) {
    match pages
    case Last(_) => true
    case More(_, next) => Complete(next)
    case Broken => false
  }

  /** The id of the first summary of that name, if any. */
  function FirstNamed(ss: seq<Summary>, name: string): Option<string> {
    if ss == [] then None else if ss[0].name == name then Some(ss[0].id) else FirstNamed(ss[1..], name)
  }

  /** `Some("")` is "no such load balancer", `None` an error. */
  function FindByName(pages: Chain, name: string): Option<string> {
    var found := FirstNamed(Listed(pages), name);
    if found.Some? then found else if Complete(pages) then Some("") else None
  }

  lemma {:induction false} FirstNamedConcat(a: seq<Summary>, b: seq<Summary>, name: string)
    ensures FirstNamed(a + b, name) == if FirstNamed(a, name).Some? then FirstNamed(a, name) else FirstNamed(b, name)
  {
    if a == [] {
      assert a + b == b;
    } else {
      assert (a + b)[1..] == a[1..] + b;
      FirstNamedConcat(a[1..], b, name);
    }
  }

  /** What the lookup means: the first match in the concatenated pages, or certainty that there is none. */
  lemma {:induction false} FirstNamedMeaning(ss: seq<Summary>, name: string)
    ensures FirstNamed(ss, name).None? <==> forall i :: 0 <= i < |ss| ==> ss[i].name != name
    ensures FirstNamed(ss, name).Some? ==>
              exists i :: 0 <= i < |ss| && ss[i] == Summary(FirstNamed(ss, name).value, name)
                          && forall j :: 0 <= j < i ==> ss[j].name != name
  {
    if ss != [] {
      FirstNamedMeaning(ss[1..], name);
      if ss[0].name == name {
        assert ss[0] == Summary(FirstNamed(ss, name).value, name);
      } else if FirstNamed(ss, name).Some? {
        var i :| 0 <= i < |ss[1..]| && ss[1..][i] == Summary(FirstNamed(ss, name).value, name)
                 && forall j :: 0 <= j < i ==> ss[1..][j].name != name;
        assert ss[i + 1] == Summary(FirstNamed(ss, name).value, name);
        assert forall j :: 0 < j < i + 1 ==> ss[j] == ss[1..][j - 1];
      } else {
        assert forall i :: 0 < i < |ss| ==> ss[i] == ss[1..][i - 1];
      }
    }
  }

  method FindLoadBalancerByName(pages: Chain, name: string) returns (r: Option<string>)
    ensures r == FindByName(pages, name)
  {
    var rest := pages;
    while true
      invariant FindByName(pages, name) == FindByName(rest, name)
      decreases rest
    {
      if rest.Broken? {
        return None;
      }
      var page := rest.page;
      for i := 0 to |page|
        invariant FirstNamed(page, name) == FirstNamed(page[i..], name)
      {
        if page[i].name == name {
          if rest.More? {
            FirstNamedConcat(page, Listed(rest.next), name);
          }
          return Some(page[i].id);
        }
      }
      assert page[|page|..] == [];
      if rest.Last? {
        return Some("");
      }
      FirstNamedConcat(page, Listed(rest.next), name);
      rest := rest.next;
    }
  }
}
