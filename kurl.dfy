/**
 kurl's entry points `Do` and `DoMany` and the aggregation that merges the
 per-worker accumulators into one `Result`.

 The start gate and the goroutines are not modelled: every worker is run to
 completion one after another, which is what the gate allows since the
 workers share nothing but the read-only settings.
 */
module Kurl {
  import opened Wrappers
  import opened Histograms
  import opened Config
  import opened Worker

  /** The statistics of one run (the float average is not part of the model). */
  datatype Result = Result(
    requestsCount: int,
    errorCount: int,
    overallDuration: int,
    responseLatencyMin: int,
    responseLatencyMax: int,
    statusCodesFrequency: Histogram)

  /** An HTTP request, opaque: its contents only matter to the HTTP client, which the outcomes replace. */
  datatype Request = Request

  /**
   What one worker will observe once released: the HTTP client's answers to
   its calls and the clock's readings at its pacing checks.
   */
  datatype Traffic = Traffic(outcomes: seq<Outcome>, paceElapsed: seq<int>)

  /** The traffic covers exactly the requests one worker issues. */
  predicate Serves(t: Traffic, settings: Settings)
  {
    |t.outcomes| == |t.paceElapsed| == Iterations(settings.requestCount)
  }

  const LengthMismatch := "The length of requests must be equal to settings.ThreadCount"
  const NilRequest := "The requests array cannot contain nil pointers"

  /** The error counts of the workers, worker 0 first. */
  function ErrorCounts(ts: seq<Summary>): seq<int>
  {
    seq(|ts|, i requires 0 <= i < |ts| => ts[i].errorCount)
  }

  /** The histograms of the workers, worker 0 first. */
  function HistogramsOf(ts: seq<Summary>): seq<Histogram>
  {
    seq(|ts|, i requires 0 <= i < |ts| => ts[i].statusCodesCount)
  }

  /** All latencies, worker-major: worker 0's in issue order, then worker 1's, and so on. */
  function AllLatencies(ts: seq<Summary>): seq<int>
  {
    if ts == [] then [] else AllLatencies(ts[..|ts| - 1]) + ts[|ts| - 1].latency
  }

  /** The workers' accumulators read as values. */
  function Views(ws: seq<WorkerResult>): seq<Summary>
    reads set w | w in ws, set w | w in ws :: w.latency
  {
    seq(|ws|, i requires 0 <= i < |ws| reads if 0 <= i < |ws| then {ws[i], ws[i].latency} else {} => ws[i].View())
  }

  /** What every worker holds after running its traffic from an empty accumulator. */
  function Runs(traffic: seq<Traffic>): seq<Summary>
  {
    seq(|traffic|, i requires 0 <= i < |traffic| => Run(traffic[i].outcomes))
  }

  /**
   One step of the min/max scan exactly as written: a latency that lowers
   the minimum is not also compared with the maximum.
   */
  function ScanStep(bounds: (int, int), latency: int): (int, int)
  {
    if latency < bounds.0 then (latency, bounds.1)
    else if latency > bounds.1 then (bounds.0, latency)
    else bounds
  }

  /** The min/max scan over `s`, starting from `bounds`. */
  function Scan(bounds: (int, int), s: seq<int>): (int, int)
  {
    if s == [] then bounds else ScanStep(Scan(bounds, s[..|s| - 1]), s[|s| - 1])
  }

  /** `lo` is the least element of `s`. */
  predicate IsMin(lo: int, s: seq<int>)
  {
    lo in s && forall x :: x in s ==> lo <= x
  }

  /** `hi` is the greatest element of `s`. */
  predicate IsMax(hi: int, s: seq<int>)
  {
    hi in s && forall x :: x in s ==> x <= hi
  }

  /**
   Because the minimum never exceeds the maximum, the `else if` never skips a
   new maximum: a scan that starts with `lo <= hi` ends with the least of
   `lo` and `s` and the greatest of `hi` and `s`.
   */
  lemma {:induction false} ScanFindsExtremes(lo: int, hi: int, s: seq<int>)
    requires lo <= hi
    ensures Scan((lo, hi), s).0 <= Scan((lo, hi), s).1
    ensures Scan((lo, hi), s).0 == lo || Scan((lo, hi), s).0 in s
    ensures Scan((lo, hi), s).1 == hi || Scan((lo, hi), s).1 in s
    ensures Scan((lo, hi), s).0 <= lo && hi <= Scan((lo, hi), s).1
    ensures forall x :: x in s ==> Scan((lo, hi), s).0 <= x <= Scan((lo, hi), s).1
  {
    if s != [] {
      var init := s[..|s| - 1];
      ScanFindsExtremes(lo, hi, init);
      assert s == init + [s[|s| - 1]];
    }
  }

  /** Without `lo <= hi` the same scan can miss the maximum. */
  lemma ScanNeedsOrderedStart()
    ensures Scan((5, 0), [3]) == (3, 0)
    ensures !(3 <= Scan((5, 0), [3]).1)
  {
    assert [3][..0] == [];
  }

  /**
   The `Result` of `aggregateResults` for the accumulators `ts`: the request
   total from the settings, the summed error counts, the merged histograms
   and the min/max scan seeded with worker 0's first latency.
   */
  function Aggregate(settings: Settings, elapsed: int, ts: seq<Summary>): Result
    requires |ts| >= 1 && |ts[0].latency| >= 1
  {
    var first := ts[0].latency[0];
    var bounds := Scan((first, first), AllLatencies(ts));
    Result(
      settings.threadCount * settings.requestCount,
      SumOf(ErrorCounts(ts)),
      elapsed,
      bounds.0,
      bounds.1,
      MergeAll(HistogramsOf(ts)))
  }

  lemma {:induction false} AllLatenciesHead(ts: seq<Summary>)
    requires |ts| >= 1
    ensures ts[0].latency <= AllLatencies(ts)
  {
    if |ts| > 1 {
      AllLatenciesHead(ts[..|ts| - 1]);
    } else {
      assert ts[..0] == [];
    }
  }

  /**
   The aggregated minimum and maximum are latencies of the run and bound
   every latency of every worker, failed requests included.
   */
  lemma AggregateExtremes(settings: Settings, elapsed: int, ts: seq<Summary>)
    requires |ts| >= 1 && |ts[0].latency| >= 1
    ensures IsMin(Aggregate(settings, elapsed, ts).responseLatencyMin, AllLatencies(ts))
    ensures IsMax(Aggregate(settings, elapsed, ts).responseLatencyMax, AllLatencies(ts))
  {
    var first := ts[0].latency[0];
    AllLatenciesHead(ts);
    assert first in AllLatencies(ts);
    ScanFindsExtremes(first, first, AllLatencies(ts));
  }

  /**
   The aggregated counts: the error count is the sum of the workers' error
   counts; every code's frequency is the sum of the workers' counts for it,
   and the codes present are exactly those some worker saw.
   */
  lemma AggregateCounts(settings: Settings, elapsed: int, ts: seq<Summary>)
    requires |ts| >= 1 && |ts[0].latency| >= 1
    ensures Aggregate(settings, elapsed, ts).requestsCount == settings.threadCount * settings.requestCount
    ensures Aggregate(settings, elapsed, ts).errorCount == SumOf(ErrorCounts(ts))
    ensures Aggregate(settings, elapsed, ts).statusCodesFrequency.Keys == KeysAcross(HistogramsOf(ts))
    ensures forall k :: Get(Aggregate(settings, elapsed, ts).statusCodesFrequency, k) == CountAcross(HistogramsOf(ts), k)
  {
    MergeAllMeaning(HistogramsOf(ts));
  }

  /**
   Accumulators that each account for `n` calls together account for
   `|ts| * n`: summed errors plus summed histogram totals, and the number of
   latencies.
   */
  lemma {:induction false} SummariesAccount(ts: seq<Summary>, n: nat)
    requires forall i :: 0 <= i < |ts| ==>
      |ts[i].latency| == n && ts[i].errorCount + Total(ts[i].statusCodesCount) == n
    ensures SumOf(ErrorCounts(ts)) + TotalAcross(HistogramsOf(ts)) == |ts| * n
    ensures |AllLatencies(ts)| == |ts| * n
  {
    if ts != [] {
      var k := |ts| - 1;
      SummariesAccount(ts[..k], n);
      AggregateStep(ts, k);
      assert ts[..k + 1] == ts;
      MulSucc(k, n);
    }
  }

  /**
   Every request of workers that ran their traffic from empty accumulators
   is accounted for once: the workers' errors plus their histogram totals,
   and the number of latencies, both equal the number of calls made.
   */
  lemma RunsAccount(traffic: seq<Traffic>, n: nat)
    requires forall i :: 0 <= i < |traffic| ==> |traffic[i].outcomes| == n
    ensures SumOf(ErrorCounts(Runs(traffic))) + TotalAcross(HistogramsOf(Runs(traffic))) == |traffic| * n
    ensures |AllLatencies(Runs(traffic))| == |traffic| * n
  {
    var ts := Runs(traffic);
    forall i | 0 <= i < |ts|
      ensures |ts[i].latency| == n && ts[i].errorCount + Total(ts[i].statusCodesCount) == n
    {
      RunAccounts(traffic[i].outcomes);
    }
    SummariesAccount(ts, n);
  }

  /**
   The run's invariant: the completed requests (the histogram's total) plus
   the errors equal `ThreadCount * RequestCount`, and so does the number of
   latencies recorded.
   */
  lemma AggregateAccounts(settings: Settings, elapsed: int, traffic: seq<Traffic>)
    requires settings.threadCount >= 1 && settings.requestCount >= 1
    requires |traffic| == settings.threadCount
    requires forall i :: 0 <= i < |traffic| ==> Serves(traffic[i], settings)
    ensures |Runs(traffic)[0].latency| >= 1
    ensures Aggregate(settings, elapsed, Runs(traffic)).errorCount
          + Total(Aggregate(settings, elapsed, Runs(traffic)).statusCodesFrequency)
         == Aggregate(settings, elapsed, Runs(traffic)).requestsCount
    ensures |AllLatencies(Runs(traffic))| == Aggregate(settings, elapsed, Runs(traffic)).requestsCount
  {
    RunsAccount(traffic, settings.requestCount);
    MergeAllTotal(HistogramsOf(Runs(traffic)));
  }

  /** Workers whose every call is answered with `code` report no error and `code` once per call. */
  lemma {:induction false} UniformRuns(traffic: seq<Traffic>, n: nat, code: int)
    requires forall i :: 0 <= i < |traffic| ==> |traffic[i].outcomes| == n
    requires forall i, j :: 0 <= i < |traffic| && 0 <= j < n ==>
      traffic[i].outcomes[j].Status? && traffic[i].outcomes[j].code == code
    ensures SumOf(ErrorCounts(Runs(traffic))) == 0
    ensures CountAcross(HistogramsOf(Runs(traffic)), code) == |traffic| * n
  {
    if traffic != [] {
      var init := traffic[..|traffic| - 1];
      var ts := Runs(traffic);
      var last := traffic[|traffic| - 1].outcomes;
      UniformRuns(init, n, code);
      assert Runs(init) == ts[..|ts| - 1];
      assert ErrorCounts(ts)[..|ts| - 1] == ErrorCounts(Runs(init));
      assert HistogramsOf(ts)[..|ts| - 1] == HistogramsOf(Runs(init));
      AllAnswered(last, code);
      CodesCount(map[], last);
      MulSucc(|traffic| - 1, n);
    }
  }

  /**
   A run in which the server answers every request with the same status
   code: no error, and that code's frequency is `ThreadCount * RequestCount`.
   */
  lemma AggregateUniform(settings: Settings, elapsed: int, traffic: seq<Traffic>, code: int)
    requires settings.threadCount >= 1 && settings.requestCount >= 1
    requires |traffic| == settings.threadCount
    requires forall i :: 0 <= i < |traffic| ==> Serves(traffic[i], settings)
    requires forall i, j :: 0 <= i < |traffic| && 0 <= j < |traffic[i].outcomes| ==>
      traffic[i].outcomes[j].Status? && traffic[i].outcomes[j].code == code
    ensures |Runs(traffic)[0].latency| >= 1
    ensures Aggregate(settings, elapsed, Runs(traffic)).errorCount == 0
    ensures Get(Aggregate(settings, elapsed, Runs(traffic)).statusCodesFrequency, code)
         == settings.threadCount * settings.requestCount
  {
    UniformRuns(traffic, settings.requestCount, code);
    AggregateCounts(settings, elapsed, Runs(traffic));
  }

  /** Ten workers of ten requests all answered 200: 100 requests, no error, 100 times 200. */
  lemma TenByTenAllOk(elapsed: int, wait: int, traffic: seq<Traffic>)
    requires |traffic| == 10
    requires forall i :: 0 <= i < 10 ==> Serves(traffic[i], Settings(10, 10, wait))
    requires forall i, j :: 0 <= i < 10 && 0 <= j < |traffic[i].outcomes| ==>
      traffic[i].outcomes[j].Status? && traffic[i].outcomes[j].code == 200
    ensures |Runs(traffic)[0].latency| >= 1
    ensures Aggregate(Settings(10, 10, wait), elapsed, Runs(traffic)).requestsCount == 100
    ensures Aggregate(Settings(10, 10, wait), elapsed, Runs(traffic)).errorCount == 0
    ensures Get(Aggregate(Settings(10, 10, wait), elapsed, Runs(traffic)).statusCodesFrequency, 200) == 100
  {
    AggregateUniform(Settings(10, 10, wait), elapsed, traffic, 200);
  }

  /** Scanning `a + b` is scanning `a`, then `b` from where `a` left off. */
  lemma {:induction false} ScanAppend(bounds: (int, int), a: seq<int>, b: seq<int>)
    ensures Scan(bounds, a + b) == Scan(Scan(bounds, a), b)
  {
    if b == [] {
      assert a + b == a;
    } else {
      ScanAppend(bounds, a, b[..|b| - 1]);
      assert (a + b)[..|a + b| - 1] == a + b[..|b| - 1];
    }
  }

  /** The sum of `a + b` is the sum of `a` plus the sum of `b`. */
  lemma {:induction false} SumOfAppend(a: seq<int>, b: seq<int>)
    ensures SumOf(a + b) == SumOf(a) + SumOf(b)
  {
    if b == [] {
      assert a + b == a;
    } else {
      SumOfAppend(a, b[..|b| - 1]);
      assert (a + b)[..|a + b| - 1] == a + b[..|b| - 1];
    }
  }

  /**
   The inner `range` over one worker's latencies: every latency is added to
   the sum and goes through the `if ... else if` min/max update of `result`,
   which nothing else in `result` sees.
   */
  method ScanLatencies(result: Result, sumLatency: int, latency: array<int>)
    returns (scanned: Result, sum: int)
    ensures scanned == result.(
      responseLatencyMin := Scan((result.responseLatencyMin, result.responseLatencyMax), latency[..]).0,
      responseLatencyMax := Scan((result.responseLatencyMin, result.responseLatencyMax), latency[..]).1)
    ensures sum == sumLatency + SumOf(latency[..])
  {
    scanned, sum := result, sumLatency;
    var j := 0;
    while j < latency.Length
      invariant 0 <= j <= latency.Length
      invariant scanned == result.(
        responseLatencyMin := Scan((result.responseLatencyMin, result.responseLatencyMax), latency[..j]).0,
        responseLatencyMax := Scan((result.responseLatencyMin, result.responseLatencyMax), latency[..j]).1)
      invariant sum == sumLatency + SumOf(latency[..j])
    {
      var l := latency[j];
      assert latency[..j + 1][..j] == latency[..j];
      sum := sum + l;
      if l < scanned.responseLatencyMin {
        scanned := scanned.(responseLatencyMin := l);
      } else if l > scanned.responseLatencyMax {
        scanned := scanned.(responseLatencyMax := l);
      }
      j := j + 1;
    }
    assert latency[..j] == latency[..];
  }

  /**
   The aggregates of workers `..i + 1` are those of workers `..i` extended
   with worker `i`.
   */
  lemma AggregateStep(vs: seq<Summary>, i: nat)
    requires i < |vs|
    ensures SumOf(ErrorCounts(vs[..i + 1])) == SumOf(ErrorCounts(vs[..i])) + vs[i].errorCount
    ensures MergeAll(HistogramsOf(vs[..i + 1])) == Merge(MergeAll(HistogramsOf(vs[..i])), vs[i].statusCodesCount)
    ensures TotalAcross(HistogramsOf(vs[..i + 1])) == TotalAcross(HistogramsOf(vs[..i])) + Total(vs[i].statusCodesCount)
    ensures AllLatencies(vs[..i + 1]) == AllLatencies(vs[..i]) + vs[i].latency
  {
    assert vs[..i + 1][..i] == vs[..i];
    assert ErrorCounts(vs[..i + 1])[..i] == ErrorCounts(vs[..i]);
    assert HistogramsOf(vs[..i + 1])[..i] == HistogramsOf(vs[..i]);
  }

  /**
   `aggregateResults`: one pass over the workers that sums their error counts
   and latencies, scans for the minimum and maximum latency with the
   `if ... else if` of the source, and merges their histograms.
   `sumLatency` is the sum the source turns into the average.
   */
  method AggregateResults(settings: Settings, elapsed: int, workerResults: seq<WorkerResult>)
    returns (result: Result, sumLatency: int)
    requires |workerResults| == settings.threadCount
    requires |workerResults| >= 1 && workerResults[0].latency.Length >= 1
    ensures result == Aggregate(settings, elapsed, Views(workerResults))
    ensures sumLatency == SumOf(AllLatencies(Views(workerResults)))
  {
    ghost var vs := Views(workerResults);
    var first := workerResults[0].latency[0];
    result := Result(settings.threadCount * settings.requestCount, 0, elapsed, first, first, map[]);
    sumLatency := 0;
    var i := 0;
    while i < settings.threadCount
      invariant 0 <= i <= |vs|
      invariant result.requestsCount == settings.threadCount * settings.requestCount
      invariant result.overallDuration == elapsed
      invariant result.errorCount == SumOf(ErrorCounts(vs[..i]))
      invariant result.statusCodesFrequency == MergeAll(HistogramsOf(vs[..i]))
      invariant sumLatency == SumOf(AllLatencies(vs[..i]))
      invariant (result.responseLatencyMin, result.responseLatencyMax) == Scan((first, first), AllLatencies(vs[..i]))
    {
      var w := workerResults[i];
      assert vs[i] == w.View();
      AggregateStep(vs, i);
      ScanAppend((first, first), AllLatencies(vs[..i]), vs[i].latency);
      SumOfAppend(AllLatencies(vs[..i]), vs[i].latency);

      result := result.(errorCount := result.errorCount + w.errorCount);
      result, sumLatency := ScanLatencies(result, sumLatency, w.latency);
      var merged := MergeInto(result.statusCodesFrequency, w.statusCodesCount);
      result := result.(statusCodesFrequency := merged);
      i := i + 1;
    }
    assert vs[..i] == vs;
  }

  /**
   The accumulators are distinct objects with distinct latency buffers, so
   no worker can write into another's.
   */
  predicate Isolated(ws: seq<WorkerResult>)
  {
    forall i, j :: 0 <= i < j < |ws| ==> ws[i] != ws[j] && ws[i].latency != ws[j].latency
  }

  /** Distinct accumulators, each as allocated for `n` requests per worker. */
  predicate Ready(ws: seq<WorkerResult>, n: nat)
    reads set w | w in ws, set w | w in ws :: w.latency
  {
    && Isolated(ws)
    && forall j :: 0 <= j < |ws| ==> ws[j].latency.Length == n && ws[j].View() == Empty(n)
  }

  /**
   One round of the allocation loops of `Do` and `DoMany`: a new
   accumulator for the next worker, with a zeroed latency slot per request
   and an empty histogram.
   */
  method Allocate(ws: seq<WorkerResult>, n: nat) returns (ws': seq<WorkerResult>)
    requires Ready(ws, n)
    ensures |ws'| == |ws| + 1 && ws'[..|ws|] == ws
    ensures fresh(ws'[|ws|]) && fresh(ws'[|ws|].latency)
    ensures Ready(ws', n)
  {
    var w := new WorkerResult(n);
    ws' := ws + [w];
  }

  /**
   The workers once the start gate opens, run one after another: worker `i`
   runs its traffic into its own accumulator, with no test callback (the
   entry points pass none). Every accumulator ends as its traffic dictates,
   whatever the others did.
   */
  method RunWorkers(settings: Settings, workerResults: seq<WorkerResult>, traffic: seq<Traffic>)
    requires settings.requestCount >= 0
    requires |workerResults| == |traffic| && Ready(workerResults, settings.requestCount)
    requires forall i :: 0 <= i < |workerResults| ==> Serves(traffic[i], settings)
    modifies set w | w in workerResults, set w | w in workerResults :: w.latency
    ensures Views(workerResults) == Runs(traffic)
  {
    var i := 0;
    while i < |workerResults|
      invariant 0 <= i <= |workerResults|
      invariant forall j :: 0 <= j < i ==> workerResults[j].View() == Run(traffic[j].outcomes)
      invariant forall j :: i <= j < |workerResults| ==> workerResults[j].View() == Empty(settings.requestCount)
    {
      var w := workerResults[i];
      var calls, sleeps := Work(settings, false, traffic[i].outcomes, traffic[i].paceElapsed, w);
      assert w.latency[..] == w.latency[..|traffic[i].outcomes|];
      i := i + 1;
    }
  }

  /** A worker that serves at least one request records at least one latency. */
  lemma FirstRunLatency(settings: Settings, traffic: seq<Traffic>)
    requires settings.requestCount >= 1
    requires |traffic| >= 1 && Serves(traffic[0], settings)
    ensures |Runs(traffic)[0].latency| == settings.requestCount
  {
  }

  /**
   What `Do` and `DoMany` do once every accumulator is allocated: release
   the workers, then aggregate what they recorded.
   */
  method RunAndAggregate(settings: Settings, elapsed: int, workerResults: seq<WorkerResult>, traffic: seq<Traffic>)
    returns (result: Result)
    requires settings.threadCount >= 1 && settings.requestCount >= 1
    requires |workerResults| == |traffic| == settings.threadCount
    requires Ready(workerResults, settings.requestCount)
    requires forall i :: 0 <= i < |traffic| ==> Serves(traffic[i], settings)
    modifies set w | w in workerResults, set w | w in workerResults :: w.latency
    ensures |Runs(traffic)[0].latency| >= 1
    ensures result == Aggregate(settings, elapsed, Runs(traffic))
  {
    RunWorkers(settings, workerResults, traffic);
    FirstRunLatency(settings, traffic);
    var sumLatency;
    result, sumLatency := AggregateResults(settings, elapsed, workerResults);
  }

  /**
   `Do`: one accumulator per thread, each worker running the same request,
   then the aggregation. The source indexes the first latency of the first
   worker, so it needs at least one thread and one request per thread.
   */
  method Do(settings: Settings, request: Request, elapsed: int, traffic: seq<Traffic>) returns (result: Result)
    requires settings.threadCount >= 1 && settings.requestCount >= 1
    requires |traffic| == settings.threadCount
    requires forall i :: 0 <= i < |traffic| ==> Serves(traffic[i], settings)
    ensures |Runs(traffic)[0].latency| >= 1
    ensures result == Aggregate(settings, elapsed, Runs(traffic))
  {
    var workerResults: seq<WorkerResult> := [];
    var i := 0;
    while i < settings.threadCount
      invariant 0 <= i <= settings.threadCount
      invariant |workerResults| == i && Ready(workerResults, settings.requestCount)
      invariant forall j :: 0 <= j < i ==> fresh(workerResults[j]) && fresh(workerResults[j].latency)
    {
      workerResults := Allocate(workerResults, settings.requestCount);
      i := i + 1;
    }
    result := RunAndAggregate(settings, elapsed, workerResults, traffic);
  }

  /**
   `DoMany`: like `Do` with one request per worker. A request slice whose
   length is not `ThreadCount`, or that holds a nil request, is rejected with
   the source's error and no result.
   */
  method DoMany(settings: Settings, requests: seq<Option<Request>>, elapsed: int, traffic: seq<Traffic>)
    returns (result: Option<Result>, err: Option<string>)
    requires |traffic| == |requests|
    requires forall i :: 0 <= i < |traffic| ==> Serves(traffic[i], settings)
    requires settings.threadCount == |requests| ==>
      && settings.threadCount >= 1
      && settings.requestCount >= 0
      && (None !in requests ==> settings.requestCount >= 1)
    ensures result.None? <==> err.Some?
    ensures settings.threadCount != |requests| ==> err == Some(LengthMismatch)
    ensures settings.threadCount == |requests| && None in requests ==> err == Some(NilRequest)
    ensures settings.threadCount == |requests| && None !in requests ==>
      && |Runs(traffic)[0].latency| >= 1
      && result == Some(Aggregate(settings, elapsed, Runs(traffic)))
  {
    if settings.threadCount != |requests| {
      return None, Some(LengthMismatch);
    }

    var workerResults: seq<WorkerResult> := [];
    var i := 0;
    while i < settings.threadCount
      invariant 0 <= i <= settings.threadCount
      invariant forall j :: 0 <= j < i ==> requests[j].Some?
      invariant |workerResults| == i && Ready(workerResults, settings.requestCount)
      invariant forall j :: 0 <= j < i ==> fresh(workerResults[j]) && fresh(workerResults[j].latency)
    {
      workerResults := Allocate(workerResults, settings.requestCount);
      if requests[i].None? {
        return None, Some(NilRequest);
      }
      i := i + 1;
    }

    var aggregated := RunAndAggregate(settings, elapsed, workerResults, traffic);
    return Some(aggregated), None;
  }
}
