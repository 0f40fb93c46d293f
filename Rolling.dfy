/**
 * The retention policy of the telemetry series: every tick appends one sample
 * and then keeps only the most recent `Capacity` entries (`x[-100:]`), so the
 * oldest entry is evicted first.
 */
module Rolling {
  import opened Arith

  /** Number of samples each series retains. */
  const Capacity: nat := 100

  /** The last element of a non-empty series (Python's `x[-1]`). */
  function Last<T>(s: seq<T>): T
    requires s != []
  {
    s[|s| - 1]
  }

  /** Python's `x[-n:]` for `n > 0`: the whole series when it is short enough, otherwise its last `n` entries. */
  function KeepLast<T>(s: seq<T>, n: nat): (r: seq<T>)
    requires n > 0
    ensures |r| == Min(|s|, n)
    ensures r == s[|s| - |r|..]
  {
    if |s| <= n then s else s[|s| - n..]
  }

  /** One tick of a series: append `x`, then keep the last `Capacity` entries. */
  function Push<T>(s: seq<T>, x: T): seq<T>
  {
    KeepLast(s + [x], Capacity)
  }

  /** Consecutive time indices: the entry at position i is the first entry plus i. */
  predicate Consecutive(t: seq<int>)
  {
    forall i :: 0 <= i < |t| ==> t[i] == t[0] + i
  }

  /** Every sample lies in the closed range [lo, hi]. */
  predicate AllIn(s: seq<real>, lo: real, hi: real)
  {
    forall i :: 0 <= i < |s| ==> lo <= s[i] <= hi
  }

  /** Keeping the last `n` entries of a series that already has at most `n` is a no-op. */
  lemma KeepLastShort<T>(s: seq<T>, n: nat)
    requires n > 0 && |s| <= n
    ensures KeepLast(s, n) == s
  {
  }

  /** Keeping the last `n` entries twice is the same as keeping them once. */
  lemma KeepLastIdempotent<T>(s: seq<T>, n: nat)
    requires n > 0
    ensures KeepLast(KeepLast(s, n), n) == KeepLast(s, n)
  {
  }

  /**
   * One tick on any series: the new length is min(old length + 1, Capacity),
   * the new sample is last, and the retained old samples keep their values and
   * their order.
   */
  lemma PushShape<T>(s: seq<T>, x: T)
    ensures |Push(s, x)| == Min(|s| + 1, Capacity)
    ensures Last(Push(s, x)) == x
    ensures Push(s, x) == s[|s| + 1 - |Push(s, x)|..] + [x]
  {
    var u := s + [x];
    assert u[|u| - |Push(s, x)|..] == s[|s| + 1 - |Push(s, x)|..] + [x];
  }

  /** FIFO eviction: on a full series a tick drops exactly the oldest sample. */
  lemma PushFull<T>(s: seq<T>, x: T)
    requires |s| == Capacity
    ensures Push(s, x) == s[1..] + [x]
  {
  }

  /** Below capacity a tick only appends. */
  lemma PushNotFull<T>(s: seq<T>, x: T)
    requires |s| < Capacity
    ensures Push(s, x) == s + [x]
  {
  }

  /** A tick keeps every sample of a series inside its range when the new sample is inside it. */
  lemma PushAllIn(s: seq<real>, x: real, lo: real, hi: real)
    requires AllIn(s, lo, hi) && lo <= x <= hi
    ensures AllIn(Push(s, x), lo, hi)
  {
    var r := Push(s, x);
    forall k | 0 <= k < |r|
      ensures lo <= r[k] <= hi
    {
      var j := |s| + 1 - |r| + k;
      if j < |s| {
        assert r[k] == s[j];
      } else {
        assert r[k] == x;
      }
    }
  }

  /** Appending the last time index plus one keeps the time series consecutive. */
  lemma PushConsecutive(t: seq<int>)
    requires t != [] && Consecutive(t)
    ensures Consecutive(Push(t, Last(t) + 1))
  {
    var r := Push(t, Last(t) + 1);
    PushShape(t, Last(t) + 1);
    var d := |t| + 1 - |r|;
    forall i | 0 <= i < |r|
      ensures r[i] == r[0] + i
    {
      if d + i < |t| {
        assert r[i] == t[d + i];
      }
    }
  }

  /** Consecutive time indices are exactly those where each entry is one more than the entry before it. */
  lemma {:induction false} ConsecutiveSteps(t: seq<int>)
    ensures Consecutive(t) <==> forall i :: 0 < i < |t| ==> t[i] == t[i - 1] + 1
  {
    if forall i :: 0 < i < |t| ==> t[i] == t[i - 1] + 1 {
      forall i | 0 <= i < |t|
        ensures t[i] == t[0] + i
      {
        StepsReach(t, i);
      }
    }
  }

  lemma {:induction false} StepsReach(t: seq<int>, i: nat)
    requires forall j :: 0 < j < |t| ==> t[j] == t[j - 1] + 1
    requires i < |t|
    ensures t[i] == t[0] + i
  {
    if i > 0 {
      StepsReach(t, i - 1);
    }
  }

  /** The time series after `n` ticks: each tick appends the last index plus one and truncates. */
  function AdvanceTimes(t: seq<int>, n: nat): seq<int>
    requires t != []
    decreases n
  {
    if n == 0 then t else AdvanceTimes(Push(t, Last(t) + 1), n - 1)
  }

  /**
   * After `n` ticks from any non-empty consecutive series of at most `Capacity`
   * entries, the series has min(old length + n, Capacity) entries, is still
   * consecutive, and its last index has grown by exactly `n`.
   */
  lemma {:induction false} AdvanceTimesShape(t: seq<int>, n: nat)
    requires t != [] && |t| <= Capacity && Consecutive(t)
    ensures AdvanceTimes(t, n) != []
    ensures |AdvanceTimes(t, n)| == Min(|t| + n, Capacity)
    ensures Consecutive(AdvanceTimes(t, n))
    ensures Last(AdvanceTimes(t, n)) == Last(t) + n
    decreases n
  {
    if n > 0 {
      var t' := Push(t, Last(t) + 1);
      PushShape(t, Last(t) + 1);
      PushConsecutive(t);
      AdvanceTimesShape(t', n - 1);
    }
  }

  /**
   * Starting from `range(100)`, after `n` ticks the time series is exactly
   * `range(n, n + 100)`.
   */
  lemma StartupTimesAfter(t: seq<int>, n: nat)
    requires |t| == Capacity && forall i :: 0 <= i < |t| ==> t[i] == i
    ensures |AdvanceTimes(t, n)| == Capacity
    ensures forall i :: 0 <= i < Capacity ==> AdvanceTimes(t, n)[i] == n + i
  {
    var r := AdvanceTimes(t, n);
    assert Consecutive(t);
    AdvanceTimesShape(t, n);
    assert r[Capacity - 1] == r[0] + Capacity - 1;
  }
}
