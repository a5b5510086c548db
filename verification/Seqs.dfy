/** Sequence equations, proved once so that larger proofs need not search for them. */
module Seqs {

  lemma Join<T>(s: seq<T>, k: nat)
    requires k <= |s|
    ensures s[..k] + s[k..] == s
  {
  }

  lemma JoinLast<T>(s: seq<T>)
    requires s != []
    ensures s[..|s| - 1] + [s[|s| - 1]] == s
  {
  }

  lemma TakeNext<T>(s: seq<T>, i: nat)
    requires i < |s|
    ensures s[..i + 1] == s[..i] + [s[i]]
    ensures s[..i + 1][..i] == s[..i]
  {
  }

  lemma TakeAll<T>(s: seq<T>)
    ensures s[..|s|] == s
  {
  }

  lemma InitOfPush<T>(s: seq<T>, x: T)
    ensures (s + [x])[..|s|] == s
  {
  }

  lemma Split<T>(a: seq<T>, b: seq<T>)
    ensures (a + b)[..|a|] == a && (a + b)[|a|..] == b
  {
  }

  lemma Assoc<T>(a: seq<T>, b: seq<T>, c: seq<T>)
    ensures a + b + c == a + (b + c)
  {
  }

  lemma Empty<T>(s: seq<T>)
    ensures [] + s == s && s + [] == s
  {
  }
}
