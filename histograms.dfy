/**
 Status-code histograms (Go's `map[int]int`): a missing key reads as zero,
 `m[k]++` and `m[k] += v` insert the key when it is missing, and merging two
 histograms is a union in which the counts of a shared key are added.
 */
module Histograms {

  type Histogram = map<int, int>

  /** The count Go reads for `h[k]`: zero for a missing key. */
  function Get(h: Histogram, k: int): int
  {
    if k in h then h[k] else 0
  }

  /** Go's `h[k] += v`. */
  function Add(h: Histogram, k: int, v: int): (r: Histogram)
    ensures r.Keys == h.Keys + {k}
    ensures Get(r, k) == Get(h, k) + v
    ensures forall x :: x != k ==> Get(r, x) == Get(h, x)
    ensures forall x :: x in h && x != k ==> r[x] == h[x]
  {
    h[k := Get(h, k) + v]
  }

  /** A non-empty set has an element. */
  lemma Inhabited(s: set<int>)
    ensures s != {} ==> exists x :: x in s
  {
    if forall x :: x !in s {
      assert s == {};
    }
  }

  /** Some key of a non-empty histogram, the same one each time it is asked for. */
  ghost function AnyKey(h: Histogram): (k: int)
    requires h.Keys != {}
    ensures k in h
  {
    Inhabited(h.Keys);
    var k :| k in h.Keys; k
  }

  /** The sum of all counts of a histogram. */
  ghost function Total(h: Histogram): int
    decreases |h|
  {
    if h.Keys == {} then 0
    else
      var k := AnyKey(h);
      h[k] + Total(h - {k})
  }

  /** Taking out any key (not only the one `Total` happens to pick) leaves the rest of the sum. */
  lemma {:induction false} TotalRemove(h: Histogram, k: int)
    requires k in h
    ensures Total(h) == h[k] + Total(h - {k})
    decreases |h|
  {
    var k' := AnyKey(h);
    if k' != k {
      assert (h - {k'}) - {k} == (h - {k}) - {k'};
      TotalRemove(h - {k'}, k);
      TotalRemove(h - {k}, k');
    }
  }

  /** `h[k] += v` adds exactly `v` to the total. */
  lemma {:induction false} TotalAdd(h: Histogram, k: int, v: int)
    ensures Total(Add(h, k, v)) == Total(h) + v
  {
    var r := Add(h, k, v);
    TotalRemove(r, k);
    if k in h {
      TotalRemove(h, k);
      assert r - {k} == h - {k};
    } else {
      assert r - {k} == h;
    }
  }

  /** Two histograms with the same keys and the same counts are the same. */
  lemma Extensional(a: Histogram, b: Histogram)
    requires a.Keys == b.Keys
    requires forall k :: Get(a, k) == Get(b, k)
    ensures a == b
  {
    forall k | k in a
      ensures a[k] == b[k]
    {
      assert Get(a, k) == Get(b, k);
    }
  }

  /** Union of two histograms, the counts of a shared key added. */
  function Merge(a: Histogram, b: Histogram): (r: Histogram)
    ensures r.Keys == a.Keys + b.Keys
    ensures forall k :: Get(r, k) == Get(a, k) + Get(b, k)
  {
    map k | k in a.Keys + b.Keys :: Get(a, k) + Get(b, k)
  }

  /** Merging `b` is merging `b` without `k`, then adding `k`'s count. */
  lemma MergeSplit(a: Histogram, b: Histogram, k: int)
    requires k in b
    ensures Merge(a, b) == Add(Merge(a, b - {k}), k, b[k])
  {
    var lhs, rhs := Merge(a, b), Add(Merge(a, b - {k}), k, b[k]);
    forall x
      ensures Get(lhs, x) == Get(rhs, x)
    {
      if x != k {
        assert Get(b - {k}, x) == Get(b, x);
      }
    }
    Extensional(lhs, rhs);
  }

  /** Merging adds the totals. */
  lemma {:induction false} TotalMerge(a: Histogram, b: Histogram)
    ensures Total(Merge(a, b)) == Total(a) + Total(b)
    decreases |b|
  {
    if b.Keys == {} {
      Extensional(Merge(a, b), a);
    } else {
      var k := AnyKey(b);
      var rest := b - {k};
      var m := Merge(a, rest);
      assert |rest| < |b|;
      TotalMerge(a, rest);
      MergeSplit(a, b, k);
      TotalAdd(m, k, b[k]);
      TotalRemove(b, k);
    }
  }

  /** The histograms of several workers merged, worker 0 first. */
  function MergeAll(hs: seq<Histogram>): Histogram
  {
    if hs == [] then map[] else Merge(MergeAll(hs[..|hs| - 1]), hs[|hs| - 1])
  }

  /** The sum of a sequence of counts or durations. */
  function SumOf(s: seq<int>): int
  {
    if s == [] then 0 else SumOf(s[..|s| - 1]) + s[|s| - 1]
  }

  /** Sum over the workers of one code's count (the independent reference for `MergeAll`). */
  function CountAcross(hs: seq<Histogram>, k: int): int
  {
    if hs == [] then 0 else CountAcross(hs[..|hs| - 1], k) + Get(hs[|hs| - 1], k)
  }

  /** The codes seen by at least one worker. */
  function KeysAcross(hs: seq<Histogram>): set<int>
  {
    if hs == [] then {} else KeysAcross(hs[..|hs| - 1]) + hs[|hs| - 1].Keys
  }

  /** Sum over the workers of their totals. */
  ghost function TotalAcross(hs: seq<Histogram>): int
  {
    if hs == [] then 0 else TotalAcross(hs[..|hs| - 1]) + Total(hs[|hs| - 1])
  }

  /**
   The merged histogram holds, for every code, the sum of the workers' counts,
   and its keys are exactly the codes some worker saw.
   */
  lemma {:induction false} MergeAllMeaning(hs: seq<Histogram>)
    ensures MergeAll(hs).Keys == KeysAcross(hs)
    ensures forall k :: Get(MergeAll(hs), k) == CountAcross(hs, k)
  {
    if hs != [] {
      MergeAllMeaning(hs[..|hs| - 1]);
    }
  }

  /** The merged histogram's total is the sum of the workers' totals. */
  lemma {:induction false} MergeAllTotal(hs: seq<Histogram>)
    ensures Total(MergeAll(hs)) == TotalAcross(hs)
  {
    if hs == [] {
    } else {
      MergeAllTotal(hs[..|hs| - 1]);
      TotalMerge(MergeAll(hs[..|hs| - 1]), hs[|hs| - 1]);
    }
  }

  /**
   Go's `for k, v := range m { acc[k] += v }`: the keys of `m` are visited in
   an unspecified order, modelled by picking any key still to be visited.
   */
  method MergeInto(acc: Histogram, m: Histogram) returns (r: Histogram)
    ensures r == Merge(acc, m)
  {
    r := acc;
    var rest := m.Keys;
    while rest != {}
      invariant rest <= m.Keys
      invariant r.Keys == acc.Keys + (m.Keys - rest)
      invariant forall x :: Get(r, x) == Get(acc, x) + (if x in rest then 0 else Get(m, x))
      decreases rest
    {
      Inhabited(rest);
      var k :| k in rest;
      r := Add(r, k, m[k]);
      rest := rest - {k};
    }
    Extensional(r, Merge(acc, m));
  }
}
