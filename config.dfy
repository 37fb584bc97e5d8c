/** The run parameters shared by every worker. */
module Config {

  /**
   One consistent form of kurl's `Settings`: the number of workers, the
   number of requests each issues, and the minimum pacing between two
   requests of one worker, in nanoseconds.
   */
  datatype Settings = Settings(threadCount: int, requestCount: int, waitBetweenRequests: int)

  /** How many times Go's `for i := 0; i < n; i++` runs its body. */
  function Iterations(n: int): nat
  {
    if n > 0 then n else 0
  }

  /** `k + 1` rounds of `n` requests. */
  lemma MulSucc(k: nat, n: nat)
    ensures k * n + n == (k + 1) * n
  {
  }
}
