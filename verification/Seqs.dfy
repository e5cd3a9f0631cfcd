/** Facts about sequences that the proofs name explicitly. */
module Seqs {

  lemma Assoc<T>(a: seq<T>, b: seq<T>, c: seq<T>)
    ensures a + (b + c) == (a + b) + c
  {}

  lemma EmptySum<T>(a: seq<T>, b: seq<T>)
    ensures a == [] ==> a + b == b
  {}

  lemma PrefixOfSum<T>(a: seq<T>, b: seq<T>)
    ensures a <= a + b
  {}

  lemma PrefixTransitive<T>(a: seq<T>, b: seq<T>, c: seq<T>)
    requires a <= b <= c
    ensures a <= c
  {
    assert forall i :: 0 <= i < |a| ==> a[i] == b[i] == c[i];
  }

  lemma NothingAdded<T>(a: seq<T>, b: seq<T>)
    requires a == a + b
    ensures b == []
  {
    assert |a + b| == |a| + |b|;
  }

  lemma Cancel<T>(a: seq<T>, b: seq<T>, c: seq<T>)
    requires b != c
    ensures a + b != a + c
  {
    assert (a + b)[|a|..] == b && (a + c)[|a|..] == c;
  }
}
