/**
 * Generic facts about sequences. Stated over an arbitrary element type,
 * they are cheap to prove here and cheap to use where the elements are
 * strings or pages.
 */
module Seqs {

  lemma AppendAssoc<T>(a: seq<T>, b: seq<T>, c: seq<T>)
    ensures a + (b + c) == (a + b) + c
  {
  }

  function Repeat<T>(x: T, n: nat): (r: seq<T>)
    ensures |r| == n && forall i :: 0 <= i < n ==> r[i] == x
  {
    seq(n, _ => x)
  }

  lemma RepeatSnoc<T>(x: T, n: nat)
    ensures Repeat(x, n + 1) == Repeat(x, n) + [x]
    ensures Repeat(x, n + 1)[..n] == Repeat(x, n)
  {
  }
}
