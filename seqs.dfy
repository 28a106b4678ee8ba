/** Sequence helpers shared by the translation and its inverse. */
module Seqs {
  /** Applies `f` to every element, keeping length and order. */
  function Map<A, B>(f: A -> B, s: seq<A>): (r: seq<B>)
    ensures |r| == |s|
    ensures forall i :: 0 <= i < |s| ==> r[i] == f(s[i])
  {
    if s == [] then [] else [f(s[0])] + Map(f, s[1..])
  }

  /** Mapping with `f` and then with a left inverse `g` of `f` gives back the input. */
  lemma MapLeftInverse<A, B>(f: A -> B, g: B -> A, s: seq<A>)
    requires forall x :: g(f(x)) == x
    ensures Map(g, Map(f, s)) == s
  {
  }
}
