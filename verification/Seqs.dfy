/** Cutting and joining sequences. */
module Seqs {

  lemma Cut<T>(s: seq<T>, k: nat)
    requires k <= |s|
    ensures s == s[..k] + s[k..]
  {}

  lemma EmptyFront<T>(s: seq<T>)
    ensures [] + s == s
  {}

  lemma Regroup<T>(s: seq<T>, t: seq<T>, u: seq<T>)
    ensures (s + t) + u == s + (t + u)
  {}

  /** A prefix of t and the stretch after it, both after s. */
  lemma ExtendPrefix<T>(s: seq<T>, t: seq<T>, k: nat, n: nat)
    requires k + n <= |t|
    ensures s + t[..k] + t[k..k + n] == s + t[..k + n]
  {}

  lemma JoinTail<T>(s: seq<T>, t: seq<T>)
    requires |s| > 0
    ensures (s + t)[0] == s[0] && (s + t)[1..] == s[1..] + t
  {}

  lemma WholePrefix<T>(s: seq<T>)
    ensures s[..|s|] == s
  {}

  /** Taking from, and dropping, the front of a join. */
  lemma JoinFront<T>(s: seq<T>, t: seq<T>)
    ensures (s + t)[..|s|] == s && (s + t)[|s|..] == t
  {}
}
