/** Error classification and the backoff budget shared by every retry loop (src/error.rs,
    src/retry.rs, src/uploader/blob.rs). Durations are in nanoseconds. */
module Retry {
  import opened Basics

  datatype CoreError =
    | Reqwest
    | Io
    | ServerError(status: nat)
    | ChunkFailed(index: nat, source: CoreError)
    | JoinFailed
    | MissingContentLength
    | Integrity
    | Stall
    | ReadStall
    | InvalidArgument
    | BadResponse
    | SessionRestart(source: CoreError)

  predicate IsRetryable(e: CoreError) {
    match e
    case Reqwest | Io | Stall | ReadStall | BadResponse | SessionRestart(_) => true
    case ServerError(status) => status == 408 || status == 429 || 500 <= status < 600
    case ChunkFailed(_, _) | JoinFailed | MissingContentLength | Integrity | InvalidArgument => false
  }

  /** Which errors another attempt may clear: transport, disk and stall errors, malformed responses, a
      session to restart, and of the statuses 408, 429 and all of 500 to 599. */
  lemma RetryableTable(status: nat, index: nat, source: CoreError)
    ensures IsRetryable(ServerError(status)) <==> status in {408, 429} || 500 <= status <= 599
    ensures IsRetryable(Reqwest) && IsRetryable(Io) && IsRetryable(Stall) && IsRetryable(ReadStall)
    ensures IsRetryable(BadResponse) && IsRetryable(SessionRestart(source))
    ensures !IsRetryable(ChunkFailed(index, source)) && !IsRetryable(JoinFailed) && !IsRetryable(Integrity)
    ensures !IsRetryable(MissingContentLength) && !IsRetryable(InvalidArgument)
  {
  }

  /** How the attempts of a retry loop ended: every one but the last failed with an error that another
      attempt may clear; so a permanent error is never retried. */
  predicate RetriedRightly(ends: seq<Option<CoreError>>, maxRetries: nat) {
    && 1 <= |ends| <= maxRetries + 1
    && (forall k :: 0 <= k < |ends| - 1 ==> ends[k].Some? && IsRetryable(ends[k].value))
    && (ends[|ends| - 1].Some? && IsRetryable(ends[|ends| - 1].value) ==> |ends| == maxRetries + 1)
  }

  /** The cause of giving up on an upload session, made retryable. */
  function ForceRetryable(e: CoreError): CoreError {
    if IsRetryable(e) then e else SessionRestart(e)
  }

  /** A session restart keeps its cause, and wraps only causes that are not retryable. */
  predicate RestartsOnce(e: CoreError) {
    e.SessionRestart? ==> !IsRetryable(e.source)
  }

  /** Forcing makes every error retryable, changes no error that already was, and never wraps
      a restart in a restart. */
  lemma ForceRetryableSpec(e: CoreError)
    requires RestartsOnce(e)
    ensures IsRetryable(ForceRetryable(e)) && RestartsOnce(ForceRetryable(e))
    ensures ForceRetryable(ForceRetryable(e)) == ForceRetryable(e)
    ensures ForceRetryable(e) == if IsRetryable(e) then e else SessionRestart(e)
  {
  }

  const MAX_RETRIES: nat := 3

  const BACKOFF_BASE_MS: nat := 100

  function SaturatingMul(a: nat, b: nat): nat {
    if a * b > U64_MAX then U64_MAX else a * b
  }

  function Pow2(n: nat): (r: nat)
    ensures r > n
  {
    if n == 0 then 1 else 2 * Pow2(n - 1)
  }

  function SaturatingPow2(n: nat): nat {
    if Pow2(n) > U64_MAX then U64_MAX else Pow2(n)
  }

  function CapNanos(attempt: nat): nat {
    SaturatingMul(SaturatingMul(BACKOFF_BASE_MS, SaturatingPow2(attempt)), 1_000_000)
  }

  function JitteredBackoff(attempt: nat, entropy: nat): nat {
    entropy % (if CapNanos(attempt) == 0 then 1 else CapNanos(attempt))
  }

  lemma {:induction false} Pow2Monotone(m: nat, n: nat)
    requires m <= n
    ensures Pow2(m) <= Pow2(n)
    decreases n
  {
    if m < n {
      Pow2Monotone(m, n - 1);
    }
  }

  /** The delay is below `2^attempt * 100 ms` for every attempt and every clock value, and no
      product leaves the 64-bit range. */
  lemma BackoffBelowCap(attempt: nat, entropy: nat)
    ensures JitteredBackoff(attempt, entropy) < Pow2(attempt) * BACKOFF_BASE_MS * 1_000_000
    ensures JitteredBackoff(attempt, entropy) <= U64_MAX
  {
    var p := Pow2(attempt);
    if p > U64_MAX {
      assert SaturatingMul(BACKOFF_BASE_MS, U64_MAX) == U64_MAX;
    }
    assert 0 < CapNanos(attempt) <= U64_MAX;
  }

  function TotalBackoff(draws: seq<nat>): nat {
    if draws == [] then 0 else TotalBackoff(draws[..|draws| - 1]) + JitteredBackoff(|draws|, draws[|draws| - 1])
  }

  /** A loop that makes at most four attempts sleeps three times, for less than 1.4 s. */
  lemma BackoffBudget(draws: seq<nat>)
    requires |draws| <= MAX_RETRIES
    ensures TotalBackoff(draws) < 1_400_000_000
  {
    assert Pow2(1) == 2 && Pow2(2) == 4 && Pow2(3) == 8;
    forall k | 0 < k <= |draws|
      ensures JitteredBackoff(k, draws[k - 1]) < Pow2(k) * BACKOFF_BASE_MS * 1_000_000
    {
      BackoffBelowCap(k, draws[k - 1]);
    }
    if |draws| == 3 {
      assert draws[..2][..1] == draws[..1] && draws[..1][..0] == [];
    } else if |draws| == 2 {
      assert draws[..1][..0] == [];
    } else if |draws| == 1 {
      assert draws[..0] == [];
    }
  }

  /** The bound is tight, and a fourth sleep, which no loop makes, would break it. */
  lemma BudgetIsTight()
    ensures TotalBackoff([199_999_999, 399_999_999, 799_999_999]) == 1_399_999_997
    ensures TotalBackoff([199_999_999, 399_999_999, 799_999_999, 1_599_999_999]) > 1_400_000_000
  {
    var a, b, c, d := 199_999_999, 399_999_999, 799_999_999, 1_599_999_999;
    assert Pow2(1) == 2 && Pow2(2) == 4 && Pow2(3) == 8 && Pow2(4) == 16;
    assert [a][..0] == [] && [a, b][..1] == [a] && [a, b, c][..2] == [a, b] && [a, b, c, d][..3] == [a, b, c];
    assert JitteredBackoff(1, a) == a && JitteredBackoff(2, b) == b && JitteredBackoff(3, c) == c;
    assert JitteredBackoff(4, d) == d;
    assert TotalBackoff([a]) == a;
    assert TotalBackoff([a, b]) == a + b;
    assert TotalBackoff([a, b, c]) == a + b + c;
  }
}
