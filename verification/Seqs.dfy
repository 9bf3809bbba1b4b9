/** Mapping over a sequence. */
module Seqs {
  function Map<A, B>(xs: seq<A>, f: A -> B): (ys: seq<B>)
    ensures |ys| == |xs|
    ensures forall i | 0 <= i < |xs| :: ys[i] == f(xs[i])
  {
    seq(|xs|, i requires 0 <= i < |xs| => f(xs[i]))
  }

  lemma MapConcat<A, B>(xs: seq<A>, ys: seq<A>, f: A -> B)
    ensures Map(xs + ys, f) == Map(xs, f) + Map(ys, f)
  {
  }

  lemma MapAgrees<A, B>(xs: seq<A>, f: A -> B, g: A -> B)
    requires forall x | x in xs :: f(x) == g(x)
    ensures Map(xs, f) == Map(xs, g)
  {
  }
}
