/**
 The first command-line version of kurl: its workers only count failures and
 status codes (no latencies, fixed pause), and `main` sums the counts of all
 workers.
 */
module LegacyCmd {
  import opened Histograms
  import opened Config
  import opened Worker
  import Kurl

  /**
   `worker` from its preparation on. `prepared` is false when building the
   request or opening the body file failed: the worker then returns without
   touching any count. Otherwise call `i` answers with `outcomes[i]` (whose
   duration this version ignores); the failures are counted locally and
   stored into the worker's error slot once, after the loop, while each
   status code is counted straight into the worker's histogram slot.
   */
  method CountResponses(
    requestCount: int,
    prepared: bool,
    outcomes: seq<Outcome>,
    codes: array<Histogram>,
    errorCount: array<int>,
    slot: nat)
    requires slot < codes.Length && slot < errorCount.Length
    requires |outcomes| == Iterations(requestCount)
    modifies codes, errorCount
    ensures !prepared ==> codes[..] == old(codes[..]) && errorCount[..] == old(errorCount[..])
    ensures prepared ==> codes[..] == old(codes[..])[slot := Codes(old(codes[slot]), outcomes)]
    ensures prepared ==> errorCount[..] == old(errorCount[..])[slot := Failures(outcomes)]
    ensures prepared ==> errorCount[slot] + Total(codes[slot]) == Total(old(codes[slot])) + |outcomes|
  {
    if !prepared {
      return;
    }

    var errorCnt := 0;
    var i := 0;
    while i < requestCount
      invariant 0 <= i <= |outcomes|
      invariant errorCnt == Failures(outcomes[..i])
      invariant codes[..] == old(codes[..])[slot := Codes(old(codes[slot]), outcomes[..i])]
      invariant errorCount[..] == old(errorCount[..])
    {
      var outcome := outcomes[i];
      if outcome.Failure? {
        errorCnt := errorCnt + 1;
      } else {
        codes[slot] := Add(codes[slot], outcome.code, 1);
      }
      assert outcomes[..i + 1][..i] == outcomes[..i];
      i := i + 1;
    }
    assert outcomes[..i] == outcomes;
    errorCount[slot] := errorCnt;
    Conservation(old(codes[slot]), outcomes);
  }

  /**
   The aggregation in `main`: the reported total, the sum of the error slots
   and the union-with-sum of the histogram slots.
   */
  method Summarize(threadCount: int, requestCount: int, codes: array<Histogram>, errorCount: array<int>)
    returns (total: int, sumErrors: int, sumCodes: Histogram)
    requires codes.Length == threadCount && errorCount.Length == threadCount
    ensures total == threadCount * requestCount
    ensures sumErrors == SumOf(errorCount[..])
    ensures sumCodes == MergeAll(codes[..])
  {
    sumCodes := map[];
    sumErrors := 0;
    var i := 0;
    while i < threadCount
      invariant 0 <= i <= threadCount
      invariant sumErrors == SumOf(errorCount[..i])
      invariant sumCodes == MergeAll(codes[..i])
    {
      sumErrors := sumErrors + errorCount[i];
      sumCodes := MergeInto(sumCodes, codes[i]);
      assert errorCount[..i + 1][..i] == errorCount[..i];
      assert codes[..i + 1][..i] == codes[..i];
      i := i + 1;
    }
    assert errorCount[..i] == errorCount[..];
    assert codes[..i] == codes[..];
    total := threadCount * requestCount;
  }

  /** The error slots after every worker ran: zero for a worker that could not prepare. */
  function ErrorSlots(prepared: seq<bool>, outcomes: seq<seq<Outcome>>): seq<int>
    requires |prepared| == |outcomes|
  {
    seq(|outcomes|, i requires 0 <= i < |outcomes| => if prepared[i] then Failures(outcomes[i]) else 0)
  }

  /** The histogram slots after every worker ran: empty for a worker that could not prepare. */
  function CodeSlots(prepared: seq<bool>, outcomes: seq<seq<Outcome>>): seq<Histogram>
    requires |prepared| == |outcomes|
  {
    seq(|outcomes|, i requires 0 <= i < |outcomes| => if prepared[i] then Codes(map[], outcomes[i]) else map[])
  }

  /**
   When every worker prepared its request, each request is counted once:
   the summed errors plus the summed histogram totals equal the number of
   requests issued.
   */
  lemma {:induction false} SlotsAccount(prepared: seq<bool>, outcomes: seq<seq<Outcome>>, n: nat)
    requires |prepared| == |outcomes|
    requires forall i :: 0 <= i < |outcomes| ==> prepared[i] && |outcomes[i]| == n
    ensures SumOf(ErrorSlots(prepared, outcomes)) + Total(MergeAll(CodeSlots(prepared, outcomes))) == |outcomes| * n
  {
    if outcomes != [] {
      var k := |outcomes| - 1;
      var es, hs := ErrorSlots(prepared, outcomes), CodeSlots(prepared, outcomes);
      SlotsAccount(prepared[..k], outcomes[..k], n);
      assert es[..k] == ErrorSlots(prepared[..k], outcomes[..k]);
      assert hs[..k] == CodeSlots(prepared[..k], outcomes[..k]);
      assert SumOf(es) == SumOf(es[..k]) + es[k];
      assert MergeAll(hs) == Merge(MergeAll(hs[..k]), hs[k]);
      TotalMerge(MergeAll(hs[..k]), hs[k]);
      Conservation(map[], outcomes[k]);
      assert Total(map[]) == 0;
      assert es[k] + Total(hs[k]) == n;
      MulSucc(k, n);
    }
  }

  /**
   `main` after parsing the command line: one empty histogram and a zero
   error slot per thread, every worker run in turn (the gate only orders
   their start), then the aggregation. When every worker prepared, the
   errors plus the completed requests make up the reported total.
   */
  method Report(threadCount: int, requestCount: int, prepared: seq<bool>, outcomes: seq<seq<Outcome>>)
    returns (total: int, sumErrors: int, sumCodes: Histogram)
    requires threadCount >= 0
    requires |prepared| == |outcomes| == threadCount
    requires forall i :: 0 <= i < threadCount ==> |outcomes[i]| == Iterations(requestCount)
    ensures total == threadCount * requestCount
    ensures sumErrors == SumOf(ErrorSlots(prepared, outcomes))
    ensures sumCodes == MergeAll(CodeSlots(prepared, outcomes))
    ensures requestCount >= 0 && (forall i :: 0 <= i < threadCount ==> prepared[i]) ==>
      sumErrors + Total(sumCodes) == total
  {
    var codes := new Histogram[threadCount](_ => map[]);
    var errorCount := new int[threadCount](_ => 0);

    var i := 0;
    while i < threadCount
      invariant 0 <= i <= threadCount
      invariant forall j :: 0 <= j < i ==> codes[j] == CodeSlots(prepared, outcomes)[j]
      invariant forall j :: 0 <= j < i ==> errorCount[j] == ErrorSlots(prepared, outcomes)[j]
      invariant forall j :: i <= j < threadCount ==> codes[j] == map[] && errorCount[j] == 0
    {
      CountResponses(requestCount, prepared[i], outcomes[i], codes, errorCount, i);
      i := i + 1;
    }
    assert codes[..] == CodeSlots(prepared, outcomes);
    assert errorCount[..] == ErrorSlots(prepared, outcomes);

    total, sumErrors, sumCodes := Summarize(threadCount, requestCount, codes, errorCount);
    if requestCount >= 0 && forall j :: 0 <= j < threadCount ==> prepared[j] {
      SlotsAccount(prepared, outcomes, requestCount);
    }
  }

  /**
   The two versions agree on counts: for the same answers, the first
   version's summed errors and histogram are the error count and status-code
   frequencies `Kurl.Do` reports.
   */
  lemma AgreesWithDo(settings: Settings, elapsed: int, traffic: seq<Kurl.Traffic>, prepared: seq<bool>)
    requires settings.threadCount >= 1 && settings.requestCount >= 1
    requires |traffic| == settings.threadCount == |prepared|
    requires forall i :: 0 <= i < |traffic| ==> Kurl.Serves(traffic[i], settings) && prepared[i]
    ensures |Kurl.Runs(traffic)[0].latency| >= 1
    ensures Kurl.Aggregate(settings, elapsed, Kurl.Runs(traffic)).errorCount
         == SumOf(ErrorSlots(prepared, seq(|traffic|, i requires 0 <= i < |traffic| => traffic[i].outcomes)))
    ensures Kurl.Aggregate(settings, elapsed, Kurl.Runs(traffic)).statusCodesFrequency
         == MergeAll(CodeSlots(prepared, seq(|traffic|, i requires 0 <= i < |traffic| => traffic[i].outcomes)))
  {
    var oss := seq(|traffic|, i requires 0 <= i < |traffic| => traffic[i].outcomes);
    assert Kurl.ErrorCounts(Kurl.Runs(traffic)) == ErrorSlots(prepared, oss);
    assert Kurl.HistogramsOf(Kurl.Runs(traffic)) == CodeSlots(prepared, oss);
  }
}
