/** Concatenation of a sequence of sequences, shared by the framing, re-chunking and queueing models. */
module Seqs {
  /** `ss[0] + ss[1] + ... + ss[|ss| - 1]`. */
  function Flatten<T>(ss: seq<seq<T>>): seq<T>
  {
    if ss == [] then [] else ss[0] + Flatten(ss[1..])
  }

  lemma {:induction false} FlattenAppend<T>(a: seq<seq<T>>, b: seq<seq<T>>)
    ensures Flatten(a + b) == Flatten(a) + Flatten(b)
  {
    if a == [] {
      assert a + b == b;
    } else {
      assert (a + b)[1..] == a[1..] + b;
      FlattenAppend(a[1..], b);
    }
  }

  /** Appending one more sequence extends the concatenation by exactly that sequence. */
  lemma FlattenSnoc<T>(a: seq<seq<T>>, x: seq<T>)
    ensures Flatten(a + [x]) == Flatten(a) + x
  {
    FlattenAppend(a, [x]);
    assert Flatten([x]) == x + Flatten([x][1..]);
  }

  /** When every piece has length `n`, the concatenation has length `n * |ss|`. */
  lemma {:induction false} FlattenUniformLength<T>(ss: seq<seq<T>>, n: nat)
    requires forall i :: 0 <= i < |ss| ==> |ss[i]| == n
    ensures |Flatten(ss)| == n * |ss|
  {
    if ss != [] {
      FlattenUniformLength(ss[1..], n);
    }
  }
}
