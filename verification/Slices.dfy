/** Facts about stretches of sequences. */
module Slices {

  lemma SliceSnoc<T>(s: seq<T>, lo: nat, hi: nat)
    requires lo < hi <= |s|
    ensures s[lo..hi] == s[lo..hi-1] + [s[hi-1]]
  {
  }
}
