/** Times that the worker loops of nodes, hosts and clients have in common. */
module Timing {

  /** Milliseconds until the next connect attempt, and to wait for an answer. */
  const RETRY_MS: nat := 10_000
  const WAIT_MS: nat := 5_000

  ghost predicate Spaced(times: seq<nat>) {
    forall j, k :: 0 <= j < k < |times| ==> times[j] + 10_000 <= times[k]
  }

  /** So n attempts span at least n - 1 times ten seconds. */
  lemma {:induction false} AttemptsSpan(times: seq<nat>, i: nat, j: nat)
    requires Spaced(times) && i <= j < |times|
    ensures times[i] + (j - i) * 10_000 <= times[j]
  {
    if i < j { AttemptsSpan(times, i, j - 1); }
  }
}
