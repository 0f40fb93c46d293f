/**
 * Python's slice `s[start:stop]` (step 1) on a list: a negative bound counts
 * from the end, and every bound is clamped into [0, len(s)]; a slice whose
 * clamped stop is not past its clamped start is empty. No bound is ever an
 * error.
 */
module Slicing {
  import opened Arith

  /** Where a slice bound `i` lands in a list of length `n`. */
  function Bound(i: int, n: nat): (k: nat)
    ensures k <= n
    ensures 0 <= i <= n ==> k == i
    ensures i < 0 && 0 <= i + n ==> k == i + n
  {
    if i < 0 then Max(0, i + n) else Min(i, n)
  }

  /** `s[start:stop]`. */
  function Slice<T>(s: seq<T>, start: int, stop: int): (r: seq<T>)
    ensures |r| == Max(0, Bound(stop, |s|) - Bound(start, |s|))
    ensures r == s[Bound(start, |s|)..Bound(start, |s|) + |r|]
  {
    var lo, hi := Bound(start, |s|), Bound(stop, |s|);
    if lo < hi then s[lo..hi] else []
  }

  /**
   * With non-negative bounds the slice holds exactly the elements at indices
   * [min(start, len), min(stop, len)), and its length is
   * max(0, min(stop, len) - min(start, len)).
   */
  lemma SliceNonNegative<T>(s: seq<T>, start: int, stop: int)
    requires 0 <= start && 0 <= stop
    ensures var lo, hi := Min(start, |s|), Min(stop, |s|);
            |Slice(s, start, stop)| == Max(0, hi - lo)
            && (lo <= hi ==> Slice(s, start, stop) == s[lo..hi])
            && (hi <= lo ==> Slice(s, start, stop) == [])
  {
  }

  /** A window inside the list has exactly `stop - start` elements, starting at `start`. */
  lemma SliceInside<T>(s: seq<T>, start: int, stop: int)
    requires 0 <= start <= stop <= |s|
    ensures Slice(s, start, stop) == s[start..stop]
    ensures |Slice(s, start, stop)| == stop - start
  {
  }

  /** Every element of a slice is an element of the list it was taken from. */
  lemma SliceMembers<T>(s: seq<T>, start: int, stop: int)
    ensures forall x :: x in Slice(s, start, stop) ==> x in s
  {
    forall x | x in Slice(s, start, stop)
      ensures x in s
    {
      var k :| 0 <= k < |Slice(s, start, stop)| && Slice(s, start, stop)[k] == x;
      assert s[Bound(start, |s|) + k] == x;
    }
  }
}
