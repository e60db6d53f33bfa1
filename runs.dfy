/** Runs of consecutive keys in a sorted key sequence, and the longest one:
    the quantities the streak loop keeps in its two counters. */
module Runs {

  function Max(a: int, b: int): int {
    if a >= b then a else b
  }

  /** keys[lo..hi] is a run: non-empty, and each key is the successor of the
      one before it. */
  ghost predicate IsRun<K>(keys: seq<K>, succ: (K, K) -> bool, lo: int, hi: int) {
    && 0 <= lo < hi <= |keys|
    && forall k :: lo < k < hi ==> succ(keys[k - 1], keys[k])
  }

  /** Length of the run that ends at index i and cannot be extended to the
      left: the loop's `streak` counter after it has looked at keys[i]. */
  function RunEndingAt<K>(keys: seq<K>, succ: (K, K) -> bool, i: nat): (r: nat)
    requires i < |keys|
    ensures 1 <= r <= i + 1
  {
    if i == 0 then 1
    else if succ(keys[i - 1], keys[i]) then RunEndingAt(keys, succ, i - 1) + 1
    else 1
  }

  /** The largest RunEndingAt(i) for i < n: the loop's `longest_streak`
      counter after it has looked at the first n keys. */
  function LongestRunIn<K>(keys: seq<K>, succ: (K, K) -> bool, n: nat): (r: nat)
    requires 1 <= n <= |keys|
    ensures 1 <= r <= n
  {
    if n == 1 then 1
    else Max(LongestRunIn(keys, succ, n - 1), RunEndingAt(keys, succ, n - 1))
  }

  /** The length of the longest run in `keys`; 0 when there are no keys. */
  function LongestRun<K>(keys: seq<K>, succ: (K, K) -> bool): (r: nat)
    ensures |keys| > 0 ==> 1 <= r <= |keys|
  {
    if |keys| == 0 then 0 else LongestRunIn(keys, succ, |keys|)
  }

  /** The keys counted by RunEndingAt(i) do form a run ending at i. */
  lemma {:induction false} RunEndingAtIsRun<K>(keys: seq<K>, succ: (K, K) -> bool, i: nat)
    requires i < |keys|
    ensures IsRun(keys, succ, i + 1 - RunEndingAt(keys, succ, i), i + 1)
  {
    if i > 0 && succ(keys[i - 1], keys[i]) {
      RunEndingAtIsRun(keys, succ, i - 1);
    }
  }

  /** No run ending at index hi - 1 is longer than RunEndingAt(hi - 1). */
  lemma {:induction false} RunEndingAtIsLongest<K>(keys: seq<K>, succ: (K, K) -> bool, lo: int, hi: int)
    requires IsRun(keys, succ, lo, hi)
    ensures hi - lo <= RunEndingAt(keys, succ, hi - 1)
  {
    if hi - 1 > lo {
      assert succ(keys[hi - 2], keys[hi - 1]);
      RunEndingAtIsLongest(keys, succ, lo, hi - 1);
    }
  }

  /** LongestRunIn(n) is the largest of RunEndingAt(0), ..., RunEndingAt(n - 1),
      and one of them attains it. */
  lemma {:induction false} LongestRunInIsMaximum<K>(keys: seq<K>, succ: (K, K) -> bool, n: nat)
    requires 1 <= n <= |keys|
    ensures forall i :: 0 <= i < n ==> RunEndingAt(keys, succ, i) <= LongestRunIn(keys, succ, n)
    ensures exists i :: 0 <= i < n && RunEndingAt(keys, succ, i) == LongestRunIn(keys, succ, n)
  {
    if n > 1 {
      LongestRunInIsMaximum(keys, succ, n - 1);
      if LongestRunIn(keys, succ, n - 1) < RunEndingAt(keys, succ, n - 1) {
        assert RunEndingAt(keys, succ, n - 1) == LongestRunIn(keys, succ, n);
      } else {
        var i :| 0 <= i < n - 1 && RunEndingAt(keys, succ, i) == LongestRunIn(keys, succ, n - 1);
        assert RunEndingAt(keys, succ, i) == LongestRunIn(keys, succ, n);
      }
    } else {
      assert RunEndingAt(keys, succ, 0) == LongestRunIn(keys, succ, 1);
    }
  }

  /** LongestRun is the length of a longest run: some run has that length and
      no run is longer. */
  lemma LongestRunIsLongest<K>(keys: seq<K>, succ: (K, K) -> bool)
    requires |keys| > 0
    ensures exists lo, hi :: IsRun(keys, succ, lo, hi) && hi - lo == LongestRun(keys, succ)
    ensures forall lo, hi :: IsRun(keys, succ, lo, hi) ==> hi - lo <= LongestRun(keys, succ)
  {
    LongestRunInIsMaximum(keys, succ, |keys|);
    var i :| 0 <= i < |keys| && RunEndingAt(keys, succ, i) == LongestRun(keys, succ);
    RunEndingAtIsRun(keys, succ, i);
    forall lo, hi | IsRun(keys, succ, lo, hi) ensures hi - lo <= LongestRun(keys, succ) {
      RunEndingAtIsLongest(keys, succ, lo, hi);
    }
  }

  /** The longest run seen never shrinks as the loop looks at more keys. */
  lemma {:induction false} LongestRunInMonotone<K>(keys: seq<K>, succ: (K, K) -> bool, n: nat, m: nat)
    requires 1 <= n <= m <= |keys|
    ensures LongestRunIn(keys, succ, n) <= LongestRunIn(keys, succ, m)
  {
    if n < m {
      LongestRunInMonotone(keys, succ, n, m - 1);
    }
  }
}
