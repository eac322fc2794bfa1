/** Sequence facts shared by the two containers' traversal specifications. */
module Seqs {

  /** The sequence read back to front: what a reverse cursor visits. */
  function Reverse<T>(s: seq<T>): (r: seq<T>)
    ensures |r| == |s|
    ensures forall k :: 0 <= k < |s| ==> r[k] == s[|s| - 1 - k]
  {
    if s == [] then [] else Reverse(s[1..]) + [s[0]]
  }

  /** Reading a suffix backwards and then one more element from the front. */
  lemma ReverseSuffixStep<T>(s: seq<T>, i: nat)
    requires i < |s|
    ensures Reverse(s[i..]) == Reverse(s[i + 1..]) + [s[i]]
  {
  }
}
