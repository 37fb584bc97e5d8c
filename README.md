# kurl, modelled in Dafny

kurl is an HTTP load generator written in Go. It starts `ThreadCount` workers
and opens a start gate. Each worker issues `RequestCount` requests to one
endpoint. For every request it records the latency in its own slot and
counts either a transport error or the response's status code, then pauses
so that consecutive requests are at least `WaitBetweenRequests` apart.
When the workers are done, `aggregateResults` merges their accumulators
into one `Result`: request total, error count, minimum and maximum latency,
and status-code frequencies.

This project models the sequential heart of that design:

- `Worker` (kurl/worker.go) covers two things. The `workerResult`
  accumulator is a class: an error count, a status-code histogram and a
  latency array. The worker loop is a method over that class. The HTTP
  client becomes a sequence of outcomes, `Failure(duration)` or
  `Status(code, duration)`. The clock becomes the elapsed times it reports
  at each pacing check. All durations are integer nanoseconds.
- `Kurl` (kurl/do.go) covers the allocation loops of `Do` and `DoMany`, the
  input checks of `DoMany`, and `aggregateResults` as nested loops.
  `aggregateResults` is proved equal to a specification function,
  `Aggregate`. The lemmas about `Aggregate` state what the `Result` means.
- `LegacyCmd` (src/kurl_cmd/main.go) covers the first command-line
  version: its counting worker, its aggregation in `main`, and the
  agreement of its counts with `Do`.
- `HeaderValue` (src/headervalue.go and kurl_cmd/headervalue.go) covers the
  `-h key=value` flag. `Set` splits its argument on `=` and appends the
  value to the header's list for the key.
- `Histograms` holds the status-code map operations both versions use:
  - increment;
  - the order-independent total;
  - union-with-sum merging, as a function and as Go's `range` loop.

  `Config` holds the settings and Go's loop count for a possibly negative
  bound. `Wrappers` holds `Option`.

The workers run one after another. The start gate only orders when they
begin, and they share nothing but the read-only settings.

## Model

| member | source | states |
|---|---|---|
| Histograms.Add | kurl/worker.go:42-43 | incrementing a code adds it to the keys, raises its count by the amount and leaves every other code's count unchanged |
| Histograms.TotalAdd | kurl/worker.go:42-43 | adding `v` to one code raises the histogram's total by exactly `v` |
| Histograms.Merge | kurl/do.go:104-106 | the merge holds the union of the keys, and each code's count is the sum of its two counts |
| Histograms.TotalMerge | kurl/do.go:104-106 | the merged total is the sum of the two totals |
| Histograms.MergeAllMeaning | kurl/do.go:88-106 | merging all workers' histograms yields exactly the codes some worker saw; each code's count is the sum over the workers |
| Histograms.MergeAllTotal | kurl/do.go:104-106 | the total of the merged histograms is the sum of the workers' totals |
| Histograms.MergeInto | kurl/do.go:104-106 | the `range` loop adding one map into another, with the keys visited in any order, yields the union-with-sum merge |
| Worker.RecordStatus | kurl/worker.go:40-43 | a failed call leaves the histogram unchanged; a response adds one to its own code and to no other |
| Worker.CodesCount | kurl/worker.go:33-43 | after a sequence of calls, each code's count grew by the number of calls answered with it, and the codes gained are exactly those seen |
| Worker.Conservation | kurl/worker.go:33-44 | every call is counted once: failures plus the histogram's total grow by the number of calls |
| Worker.AllAnswered | kurl/worker.go:40-43 | calls all answered with one code give no failure and that code once per call |
| Worker.RunAccounts | kurl/worker.go:33-44 | from an empty accumulator, a worker ends with one latency per call, and its errors plus its histogram total equal its number of calls |
| Worker.WorkerResult.constructor | kurl/do.go:45-48 | a fresh accumulator has no errors, an empty histogram and a zeroed latency slot per request |
| Worker.Pause | kurl/worker.go:52-55 | with `elapsed` the time since the reference taken after the latency was recorded (classification plus callback, not the request itself): the pause is never negative; `elapsed` plus the pause last at least the wait; there is a pause exactly when `elapsed` is shorter than the wait, and then it ends exactly at the wait |
| Worker.Work | kurl/worker.go:33-56 | call `i` writes exactly slot `i`, failures included, and the slots beyond are untouched; the error count grows by the failures; the histogram grows by the responses; the callback, when present, runs once per call with that call's status and recorded latency, and never otherwise; the pause after call `i` is the pause for its elapsed time |
| Kurl.ScanFindsExtremes | kurl/do.go:95-101 | starting with min <= max, the `if ... else if` scan keeps min <= max and ends with a true minimum and maximum, so the `else if` never misses a new maximum |
| Kurl.ScanNeedsOrderedStart | kurl/do.go:97-101 | with min > max at the start, the same scan can miss the maximum |
| Kurl.ScanLatencies | kurl/do.go:95-101 | the inner loop adds every latency of one worker to the sum and leaves the min/max fields as the `if ... else if` scan of that worker's latencies, changing nothing else in the result |
| Kurl.AggregateExtremes | kurl/do.go:86-101 | the reported minimum and maximum are latencies of the run and bound every latency of every worker, failed calls included |
| Kurl.AggregateCounts | kurl/do.go:84-107 | the request total is `ThreadCount * RequestCount`; the error count is the sum of the workers' error counts; each code's frequency is the sum of the workers' counts for it, over exactly the codes seen |
| Kurl.SummariesAccount | kurl/do.go:92-106 | accumulators that each account for `n` calls together account for workers times `n`, in errors plus histogram totals and in latencies |
| Kurl.RunsAccount | kurl/worker.go:33-44 | across all workers, errors plus histogram totals equal workers times requests, and so does the number of latencies |
| Kurl.AggregateAccounts | kurl/do.go:84-106 | in the `Result` of a run, errors plus the frequencies' total equal `RequestsCount`, and so does the number of latencies scanned |
| Kurl.AggregateUniform | kurl/do.go:84-106 | when every request is answered with the same code, there is no error and that code's frequency is `ThreadCount * RequestCount` |
| Kurl.TenByTenAllOk | kurl/do_test.go:23-33 | ten workers of ten requests all answered 200 report 100 requests, no error and 100 responses with status 200 |
| Kurl.AggregateResults | kurl/do.go:78-107 | the loops produce the `Result` specified by `Aggregate`, and the latency sum is the sum of every slot of every worker |
| Kurl.RunWorkers | kurl/worker.go:33-56 | the workers, run into distinct accumulators, leave each accumulator as its own traffic dictates |
| Kurl.Allocate | kurl/do.go:46-48 | one more accumulator, fresh and distinct from the others, with a zeroed latency slot per request and an empty histogram; the earlier ones are kept |
| Kurl.RunAndAggregate | kurl/do.go:66-74 | releasing the allocated workers and aggregating yields the aggregate of their runs |
| Kurl.Do | kurl/do.go:34-76 | allocate one empty accumulator per thread, run the workers, and return the aggregate of their runs |
| Kurl.DoMany | kurl/do.go:113-165 | it fails exactly when it returns no result; a request slice of the wrong length gives the length error; a nil request gives the nil error; otherwise the result is the aggregate of the workers' runs |
| LegacyCmd.CountResponses | src/kurl_cmd/main.go:27-58 | a worker that could not prepare its request changes no count; otherwise its histogram slot grows by the responses, and its error slot is set once to the number of failures, so errors plus completed responses make up its calls |
| LegacyCmd.Summarize | src/kurl_cmd/main.go:104-115 | the total is `threadCount * requestCount`; the summed errors are the sum of the error slots; the summed codes are the union-with-sum of the histogram slots |
| LegacyCmd.SlotsAccount | src/kurl_cmd/main.go:44-58 | when every worker prepared, the summed errors plus the summed histogram total equal workers times requests |
| LegacyCmd.Report | src/kurl_cmd/main.go:76-115 | the reported sums are those of the workers' slots; when every worker prepared, errors plus completed responses equal the reported total |
| LegacyCmd.AgreesWithDo | src/kurl_cmd/main.go:104-112 | for the same answers, the first version's summed errors and status codes equal the error count and frequencies that `Do` reports |
| HeaderValue.Split | src/headervalue.go:19 | splitting on a one-character separator gives one piece more than there are separators; no piece holds the separator; joining the pieces gives back the input |
| HeaderValue.SeparatorIsUnique | src/headervalue.go:19-20 | a string with exactly one separator has only one key and one value around it |
| HeaderValue.ParseHeader | src/headervalue.go:19-22 | an argument is accepted exactly when it holds one `=`; the key and value it yields hold no `=`, and the key, `=` and value spell the argument |
| HeaderValue.ParseHeaderAccepts | kurl_cmd/headervalue.go:19-23 | any `key=value` whose parts hold no `=` is accepted with exactly that key and value |
| HeaderValue.ParseHeaderRejectsTwoSeparators | kurl_cmd/headervalue.go:19-21 | `a=b=c` is rejected |
| HeaderValue.ParseHeaderAcceptsEmptyParts | src/headervalue.go:19-20 | `=v` and `k=` are accepted with the empty key or value |
| HeaderValue.AddValue | src/headervalue.go:23 | adding appends one value to the key's list, keeps the values already there and changes no other key |
| HeaderValue.HeadersValue.constructor | kurl_cmd/flags.go:42 | the flag's header starts empty |
| HeaderValue.HeadersValue.Set | src/headervalue.go:18-25 | success happens exactly when the argument holds one `=`; a rejected argument gives "Bad header argument" and leaves the header unchanged; an accepted one appends the value after `=` to the key before it (kurl_cmd/headervalue.go:18-25 is the same method) |

## Left out

- The start gate, the goroutines and the completion join. The workers run one after another into distinct accumulators, which is the only interleaving-free behaviour the gate allows.
- The goroutine leak when `DoMany` meets a nil request after starting earlier workers: the model returns the error and drops the started workers.
- The first version's hang when a worker returns before announcing it is ready: the model only keeps that worker's counts untouched.
- The clock and the HTTP client are inputs. Each worker gets its sequence of outcomes and its pacing readings; `Do` gets the overall elapsed time. Sleeping is returned as the list of pause lengths.
- `ResponseLatencyAvg`, which goes through `float64`: `AggregateResults` returns the integer latency sum it is computed from instead.
- Kurl.AggregateResults: requires as many accumulators as `ThreadCount`, since both callers allocate exactly that many, and at least one latency slot in the first, since the source indexes it.
- Kurl.Do: requires at least one thread and one request per thread, because otherwise the source's index of the first latency panics.
- Kurl.DoMany: when the length check passes, requires `ThreadCount >= 1`, because with no requests at all the source indexes the first accumulator and panics; requires `RequestCount >= 0`, because the allocation with a negative length panics in Go before the nil check is reached; and requires `RequestCount >= 1` when no request is nil, because the source then indexes the first latency of the first worker and panics.
- LegacyCmd.Report: requires `threadCount >= 0`, because a negative `-thread` value makes the allocation of the error slots panic in Go.
- Integer widths: counts and durations are unbounded integers, so 64-bit overflow of the latency sum or of `ThreadCount * RequestCount` is not modelled.
- The repository carries mismatched versions. `Do` passes no test callback to a `worker` that takes one, and the settings are declared twice with different fields. The model uses one `Settings` with `ThreadCount`, `RequestCount` and `WaitBetweenRequests` as integers, and the entry points run their workers without a callback.
- HeaderValue.AddValue: `http.Header.Add` canonicalises the key's letter case; the model keeps keys as given.
- `headersValue.String`, the command-line flag wiring, usage text and all printing; kurl_cmd/main.go's latency statistics (floats and square roots).
- The first version's fixed pause between requests and its request building (method, URL, body file) are left out; only whether building the request succeeded is kept.
- The HTTP request itself is opaque: `Do` and `DoMany` only need to know whether a request is present.
