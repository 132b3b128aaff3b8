/** Back-off delays and the retry budget test (app/services/retry.py). */
module Retry {
  /** The configured delays, or the built-in ones when the list is empty. The index is clamped to the last entry. */
  function ComputeRetryDelay(configured: seq<int>, retryCount: nat): int {
    var delays := if configured == [] then [0, 5, 15] else configured;
    delays[if retryCount < |delays| - 1 then retryCount else |delays| - 1]
  }

  predicate ShouldRetry(retryCount: nat, maxRetry: int) {
    retryCount < maxRetry
  }

  predicate Growing(delays: seq<int>) {
    forall i, j | 0 <= i < j < |delays| :: delays[i] <= delays[j]
  }

  /** Growing delays grow with the failures, up to the last entry of the list; the built-in ones do. */
  lemma BackOff(configured: seq<int>, m: nat, n: nat)
    requires Growing(configured) && m <= n
    ensures ComputeRetryDelay(configured, m) <= ComputeRetryDelay(configured, n)
    ensures configured != [] && n >= |configured| - 1 ==>
      ComputeRetryDelay(configured, n) == configured[|configured| - 1]
    ensures configured == [] ==>
      ComputeRetryDelay(configured, 0) == 0 && ComputeRetryDelay(configured, 1) == 5
      && ComputeRetryDelay(configured, n + 2) == 15
  {
  }
}
