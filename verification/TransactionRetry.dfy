/** The bounded retry around the booking transaction. */
module TransactionRetry {
  import opened Common

  /** P2034 is a write conflict or deadlock, P2028 a transaction that timed out on a lock; anything else is final. */
  datatype Failure = P2034 | P2028 | OtherKnown(code: string) | NotPrisma

  predicate IsRetryable(f: Failure) {
    f.P2034? || f.P2028?
  }

  /** Why a call makes the loop go round again. */
  predicate TriesAgain<T>(outcome: Result<T, Failure>) {
    outcome.Err? && IsRetryable(outcome.error)
  }

  /**
   * `calls(k)` is the outcome of the k-th call, whatever the world makes of it. The loop returns the first outcome
   * that is a success or a final error, or the last of retries + 1 calls, and makes no call after the one it returns.
   */
  method RetryTransaction<T>(calls: nat -> Result<T, Failure>, retries: nat) returns (r: Result<T, Failure>, made: nat)
    ensures 1 <= made <= retries + 1 && r == calls(made - 1)
    ensures forall k: nat :: k < made - 1 ==> calls(k) == Err(P2034) || calls(k) == Err(P2028)
    ensures r == Err(P2034) || r == Err(P2028) ==> made == retries + 1
  {
    var attempt: nat := 0;
    while true
      invariant attempt <= retries
      invariant forall k: nat :: k < attempt ==> TriesAgain(calls(k))
      decreases retries - attempt
    {
      r := calls(attempt);
      made := attempt + 1;
      if r.Ok? {
        return;
      }
      if !IsRetryable(r.error) || attempt >= retries {
        return;
      }
      attempt := attempt + 1;
    }
  }
}
