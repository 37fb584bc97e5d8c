/**
 One worker of kurl: it issues its requests one after another, records each
 call's latency in its own slot, counts transport failures and status codes,
 hands each response to the optional test callback and paces itself.

 The HTTP client is replaced by the sequence of outcomes it returns, and the
 clock by the durations it reports.
 */
module Worker {
  import opened Wrappers
  import opened Histograms
  import opened Config

  /**
   What one call of the HTTP client gives back: a transport failure (Go's
   non-nil `err`) or a response with its status code, each with the time
   the call took in nanoseconds.
   */
  datatype Outcome = Failure(duration: int) | Status(code: int, duration: int)

  /**
   One invocation of the test callback: the response's status code (`None`
   for the nil response of a failed call) and the latency recorded for it.
   */
  datatype TestCall = TestCall(response: Option<int>, latency: int)

  /** A worker's accumulator read as a value. */
  datatype Summary = Summary(errorCount: int, statusCodesCount: Histogram, latency: seq<int>)

  /** The latencies of a sequence of calls, in issue order. */
  function Latencies(os: seq<Outcome>): seq<int>
  {
    seq(|os|, i requires 0 <= i < |os| => os[i].duration)
  }

  /** The callback invocations a worker with a test makes for a sequence of calls. */
  function TestCalls(os: seq<Outcome>): seq<TestCall>
  {
    seq(|os|, i requires 0 <= i < |os| =>
      TestCall(if os[i].Failure? then None else Some(os[i].code), os[i].duration))
  }

  /** The number of failed calls. */
  function Failures(os: seq<Outcome>): nat
  {
    if os == [] then 0
    else Failures(os[..|os| - 1]) + (if os[|os| - 1].Failure? then 1 else 0)
  }

  /** The number of calls answered with status `code`. */
  function Answered(os: seq<Outcome>, code: int): nat
  {
    if os == [] then 0
    else Answered(os[..|os| - 1], code) + (if os[|os| - 1].Status? && os[|os| - 1].code == code then 1 else 0)
  }

  /** The status codes some call was answered with. */
  function CodesSeen(os: seq<Outcome>): set<int>
  {
    set i | 0 <= i < |os| && os[i].Status? :: os[i].code
  }

  /**
   The histogram update of one call: a failure leaves the histogram as it
   was, a response adds one to its own code and to no other.
   */
  function RecordStatus(h: Histogram, o: Outcome): (r: Histogram)
    ensures o.Failure? ==> r == h
    ensures o.Status? ==> r.Keys == h.Keys + {o.code} && Get(r, o.code) == Get(h, o.code) + 1
    ensures forall k :: (o.Failure? || k != o.code) ==> Get(r, k) == Get(h, k)
  {
    if o.Failure? then h else Add(h, o.code, 1)
  }

  /** The histogram after recording a sequence of calls, starting from `h`. */
  function Codes(h: Histogram, os: seq<Outcome>): Histogram
  {
    if os == [] then h else RecordStatus(Codes(h, os[..|os| - 1]), os[|os| - 1])
  }

  /**
   Recording calls adds, to every code, exactly the number of calls answered
   with it, and the keys gained are exactly the codes seen.
   */
  lemma {:induction false} CodesCount(h: Histogram, os: seq<Outcome>)
    ensures Codes(h, os).Keys == h.Keys + CodesSeen(os)
    ensures forall k :: Get(Codes(h, os), k) == Get(h, k) + Answered(os, k)
  {
    if os != [] {
      var init := os[..|os| - 1];
      CodesCount(h, init);
      assert CodesSeen(os) == CodesSeen(init) + (if os[|os| - 1].Status? then {os[|os| - 1].code} else {}) by {
        forall c | c in CodesSeen(os)
          ensures c in CodesSeen(init) + (if os[|os| - 1].Status? then {os[|os| - 1].code} else {})
        {
          var i :| 0 <= i < |os| && os[i].Status? && os[i].code == c;
          if i < |os| - 1 {
            assert init[i] == os[i];
          }
        }
        forall c | c in CodesSeen(init)
          ensures c in CodesSeen(os)
        {
          var i :| 0 <= i < |init| && init[i].Status? && init[i].code == c;
          assert os[i] == init[i];
        }
      }
    }
  }

  /**
   Every call is counted once, as a failure or in the histogram: after
   recording `os` the failures plus the histogram's total grew by `|os|`.
   */
  lemma {:induction false} Conservation(h: Histogram, os: seq<Outcome>)
    ensures Failures(os) + Total(Codes(h, os)) == Total(h) + |os|
  {
    if os != [] {
      var last := os[|os| - 1];
      Conservation(h, os[..|os| - 1]);
      if last.Status? {
        TotalAdd(Codes(h, os[..|os| - 1]), last.code, 1);
      }
    }
  }

  /** Calls all answered with the same `code`: no failure, and every call counted under `code`. */
  lemma {:induction false} AllAnswered(os: seq<Outcome>, code: int)
    requires forall j :: 0 <= j < |os| ==> os[j].Status? && os[j].code == code
    ensures Failures(os) == 0 && Answered(os, code) == |os|
  {
    if os != [] {
      AllAnswered(os[..|os| - 1], code);
    }
  }

  /** An accumulator as allocated: no errors, an empty histogram and `n` zeroed latency slots. */
  function Empty(n: nat): Summary
  {
    Summary(0, map[], seq(n, _ => 0))
  }

  /** What a worker whose accumulator starts empty holds after the calls `os`. */
  function Run(os: seq<Outcome>): Summary
  {
    Summary(Failures(os), Codes(map[], os), Latencies(os))
  }

  /**
   A finished worker accounts for every request: one latency slot per call,
   and its failures plus its histogram's total equal the number of calls.
   */
  lemma RunAccounts(os: seq<Outcome>)
    ensures |Run(os).latency| == |os|
    ensures Run(os).errorCount + Total(Run(os).statusCodesCount) == |os|
  {
    Conservation(map[], os);
    assert Total(map[]) == 0;
  }

  /** The per-worker accumulator `workerResult`, written only by its own worker. */
  class WorkerResult {
    var errorCount: int
    var statusCodesCount: Histogram
    const latency: array<int>

    /**
     The allocation `Do` and `DoMany` make for each worker: no errors, an
     empty histogram and a zeroed latency slot per request.
     */
    constructor (requestCount: nat)
      ensures fresh(latency) && latency.Length == requestCount
      ensures View() == Empty(requestCount)
    {
      errorCount := 0;
      statusCodesCount := map[];
      latency := new int[requestCount](_ => 0);
    }

    /** The accumulator's current contents as a value. */
    function View(): Summary
      reads this, latency
    {
      Summary(errorCount, statusCodesCount, latency[..])
    }
  }

  /**
   The pause after a request, computed from `elapsed`: the time since the
   reference taken right after the latency was recorded, which covers the
   classification of the outcome and the callback but not the request.
   The pause is what is left of the wait when `elapsed` is shorter, nothing
   otherwise, so `elapsed` and the pause together last at least the wait.
   */
  function Pause(elapsed: int, wait: int): (sleep: int)
    ensures sleep >= 0
    ensures elapsed + sleep >= wait
    ensures sleep > 0 <==> elapsed < wait
    ensures sleep > 0 ==> elapsed + sleep == wait
  {
    if elapsed < wait then wait - elapsed else 0
  }

  /** The bookkeeping of calls `..i + 1` is that of calls `..i` followed by call `i`. */
  lemma RecordStep(h: Histogram, os: seq<Outcome>, i: nat)
    requires i < |os|
    ensures Failures(os[..i + 1]) == Failures(os[..i]) + (if os[i].Failure? then 1 else 0)
    ensures Codes(h, os[..i + 1]) == RecordStatus(Codes(h, os[..i]), os[i])
    ensures TestCalls(os[..i + 1]) == TestCalls(os[..i]) + [TestCall(if os[i].Failure? then None else Some(os[i].code), os[i].duration)]
  {
    assert os[..i + 1][..i] == os[..i];
  }

  /**
   The body of `worker` after the start gate opens. Call `i` answers with
   `outcomes[i]`; `paceElapsed[i]` is the time the clock reports at the
   pacing check, measured from the reference taken right after `latency[i]`
   was written (so it includes classification and the callback). Returns the
   callback invocations and the pause taken after each request.
   */
  method Work(settings: Settings, test: bool, outcomes: seq<Outcome>, paceElapsed: seq<int>, result: WorkerResult)
    returns (calls: seq<TestCall>, sleeps: seq<int>)
    requires |outcomes| == |paceElapsed| == Iterations(settings.requestCount)
    requires |outcomes| <= result.latency.Length
    modifies result, result.latency
    ensures result.latency[..|outcomes|] == Latencies(outcomes)
    ensures result.latency[|outcomes|..] == old(result.latency[|outcomes|..])
    ensures result.errorCount == old(result.errorCount) + Failures(outcomes)
    ensures result.statusCodesCount == Codes(old(result.statusCodesCount), outcomes)
    ensures calls == if test then TestCalls(outcomes) else []
    ensures test ==> forall i :: 0 <= i < |outcomes| ==> calls[i].latency == result.latency[i]
    ensures |sleeps| == |outcomes|
    ensures forall i :: 0 <= i < |sleeps| ==> sleeps[i] == Pause(paceElapsed[i], settings.waitBetweenRequests)
  {
    ghost var h0 := result.statusCodesCount;
    calls, sleeps := [], [];
    var i := 0;
    while i < settings.requestCount
      invariant 0 <= i <= |outcomes|
      invariant forall k :: 0 <= k < i ==> result.latency[k] == outcomes[k].duration
      invariant forall k :: i <= k < result.latency.Length ==> result.latency[k] == old(result.latency[k])
      invariant result.errorCount == old(result.errorCount) + Failures(outcomes[..i])
      invariant result.statusCodesCount == Codes(h0, outcomes[..i])
      invariant calls == if test then TestCalls(outcomes[..i]) else []
      invariant |sleeps| == i
      invariant forall k :: 0 <= k < i ==> sleeps[k] == Pause(paceElapsed[k], settings.waitBetweenRequests)
    {
      RecordStep(h0, outcomes, i);
      var outcome := outcomes[i];
      result.latency[i] := outcome.duration;

      if outcome.Failure? {
        result.errorCount := result.errorCount + 1;
      } else {
        result.statusCodesCount := Add(result.statusCodesCount, outcome.code, 1);
      }

      if test {
        calls := calls + [TestCall(if outcome.Failure? then None else Some(outcome.code), result.latency[i])];
      }

      var elapsedSinceLastRequest := paceElapsed[i];
      if elapsedSinceLastRequest < settings.waitBetweenRequests {
        sleeps := sleeps + [settings.waitBetweenRequests - elapsedSinceLastRequest];
      } else {
        sleeps := sleeps + [0];
      }
      i := i + 1;
    }
    assert outcomes[..i] == outcomes;
  }
}
