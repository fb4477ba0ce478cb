/**
 Histograms: an observation is added to the first bucket that fits, and collection accumulates. The
 collected values are the counts at or below each bound, exactly when no bound is listed twice.
 */
module Histogram {

  /** A bucket's upper bound; the last bucket of every histogram is unbounded. */
  datatype Bound = AtMost(limit: real) | Infinite

  predicate Fits(v: real, b: Bound) {
    b.Infinite? || v <= b.limit
  }

  predicate AtOrBelow(a: Bound, b: Bound) {
    b.Infinite? || (a.AtMost? && a.limit <= b.limit)
  }

  predicate Ascending(limits: seq<Bound>) {
    forall i, j | 0 <= i <= j < |limits| :: AtOrBelow(limits[i], limits[j])
  }

  /** The configured bounds, sorted, and the unbounded bucket that is always added. */
  function Bounds(limits: seq<Bound>): seq<Bound> {
    limits + [Infinite]
  }

  /** No bound is listed twice; an infinite one in the configuration already is. */
  predicate Distinct(limits: seq<Bound>) {
    forall i, j | 0 <= i < j <= |limits| :: Bounds(limits)[i] != Bounds(limits)[j]
  }

  /** `sorted(buckets)`. */
  function Insert(sorted: seq<Bound>, b: Bound): seq<Bound> {
    if sorted == [] || AtOrBelow(sorted[|sorted| - 1], b) then sorted + [b]
    else Insert(sorted[..|sorted| - 1], b) + [sorted[|sorted| - 1]]
  }

  function Sorted(configured: seq<Bound>): seq<Bound> {
    if configured == [] then [] else Insert(Sorted(configured[..|configured| - 1]), configured[|configured| - 1])
  }

  lemma AscendingSnoc(sorted: seq<Bound>, b: Bound)
    requires Ascending(sorted) && forall x | x in sorted :: AtOrBelow(x, b)
    ensures Ascending(sorted + [b])
  {
  }

  lemma {:induction false} InsertMembers(sorted: seq<Bound>, b: Bound)
    ensures multiset(Insert(sorted, b)) == multiset(sorted) + multiset{b}
  {
    if sorted != [] {
      InsertMembers(sorted[..|sorted| - 1], b);
      assert sorted == sorted[..|sorted| - 1] + [sorted[|sorted| - 1]];
    }
  }

  lemma {:induction false} InsertKeepsAscending(sorted: seq<Bound>, b: Bound)
    requires Ascending(sorted)
    ensures Ascending(Insert(sorted, b))
  {
    if sorted == [] || AtOrBelow(sorted[|sorted| - 1], b) {
      AscendingSnoc(sorted, b);
    } else {
      var front, last := sorted[..|sorted| - 1], sorted[|sorted| - 1];
      InsertKeepsAscending(front, b);
      InsertMembers(front, b);
      forall x | x in Insert(front, b) ensures AtOrBelow(x, last) {
        assert x in multiset(Insert(front, b));
      }
      AscendingSnoc(Insert(front, b), last);
    }
  }

  lemma {:induction false} SortedKeeps(configured: seq<Bound>)
    ensures Ascending(Sorted(configured)) && multiset(Sorted(configured)) == multiset(configured)
  {
    if configured != [] {
      var n := |configured| - 1;
      assert configured == configured[..n] + [configured[n]];
      SortedKeeps(configured[..n]);
      InsertMembers(Sorted(configured[..n]), configured[n]);
      InsertKeepsAscending(Sorted(configured[..n]), configured[n]);
    }
  }

  type Buckets = map<Bound, nat>

  predicate Covers(m: Buckets, bounds: seq<Bound>) {
    forall i | 0 <= i < |bounds| :: bounds[i] in m
  }

  /** The position of the first bucket that fits. */
  function FirstFit(v: real, bounds: seq<Bound>): (f: nat)
    ensures f <= |bounds| && forall i | 0 <= i < f :: !Fits(v, bounds[i])
    ensures f < |bounds| ==> Fits(v, bounds[f])
  {
    if bounds == [] || Fits(v, bounds[0]) then 0 else 1 + FirstFit(v, bounds[1..])
  }

  lemma SomeBoundFits(v: real, limits: seq<Bound>)
    ensures FirstFit(v, Bounds(limits)) <= |limits|
  {
    assert Fits(v, Bounds(limits)[|limits|]);
  }

  /** `dict.fromkeys(buckets, 0)`. */
  function Zeroes(bounds: seq<Bound>): (m: Buckets)
    ensures Covers(m, bounds) && forall b | b in m :: m[b] == 0
  {
    map b | b in bounds :: 0
  }

  function Observed(m: Buckets, v: real, limits: seq<Bound>): Buckets
    requires Covers(m, Bounds(limits))
  {
    SomeBoundFits(v, limits);
    var b := Bounds(limits)[FirstFit(v, Bounds(limits))];
    m[b := m[b] + 1]
  }

  /** The buckets after a history of observations. */
  function Recorded(history: seq<real>, limits: seq<Bound>): (m: Buckets)
    ensures Covers(m, Bounds(limits))
  {
    if history == [] then Zeroes(Bounds(limits))
    else Observed(Recorded(history[..|history| - 1], limits), history[|history| - 1], limits)
  }

  function Cumulative(m: Buckets, bounds: seq<Bound>): nat
    requires Covers(m, bounds)
  {
    if bounds == [] then 0
    else Cumulative(m, bounds[..|bounds| - 1]) + m[bounds[|bounds| - 1]]
  }

  /** The specification: how many observations lie at or below a bound. */
  function CountAtMost(history: seq<real>, b: Bound): nat {
    if history == [] then 0
    else CountAtMost(history[..|history| - 1], b) + if Fits(history[|history| - 1], b) then 1 else 0
  }

  /** What a histogram collects for one label key. */
  function Collected(history: seq<real>, limits: seq<Bound>, i: nat): nat
    requires i <= |limits|
  {
    Cumulative(Recorded(history, limits), Bounds(limits)[..i + 1])
  }

  ghost predicate CollectsCounts(limits: seq<Bound>) {
    forall history: seq<real>, i: nat | i <= |limits| ::
      Collected(history, limits, i) == CountAtMost(history, Bounds(limits)[i])
  }

  function Occurrences(b: Bound, bounds: seq<Bound>): nat {
    if bounds == [] then 0
    else Occurrences(b, bounds[..|bounds| - 1]) + if bounds[|bounds| - 1] == b then 1 else 0
  }

  /** One more observation shows once for every listing of its bucket. */
  lemma {:induction false} CumulativeGrows(m: Buckets, b: Bound, bounds: seq<Bound>)
    requires Covers(m, bounds) && b in m
    ensures Cumulative(m[b := m[b] + 1], bounds) == Cumulative(m, bounds) + Occurrences(b, bounds)
  {
    if bounds != [] {
      CumulativeGrows(m, b, bounds[..|bounds| - 1]);
    }
  }

  lemma {:induction false} OccursOnce(bounds: seq<Bound>, f: nat, k: nat)
    requires f < |bounds| && k <= |bounds|
    requires forall i, j | 0 <= i < j < |bounds| :: bounds[i] != bounds[j]
    ensures Occurrences(bounds[f], bounds[..k]) == if f < k then 1 else 0
    decreases k
  {
    if k > 0 {
      OccursOnce(bounds, f, k - 1);
      assert bounds[..k][..k - 1] == bounds[..k - 1];
    }
  }

  /** The first fitting bucket is among the first ones exactly when the last of those fits. */
  lemma FirstFitIsSorted(v: real, limits: seq<Bound>, f: nat, i: nat)
    requires Ascending(limits) && i <= |limits| && f <= |limits|
    requires Fits(v, Bounds(limits)[f]) && forall j | 0 <= j < f :: !Fits(v, Bounds(limits)[j])
    ensures f < i + 1 <==> Fits(v, Bounds(limits)[i])
  {
  }

  lemma {:induction false} DistinctBoundsCollect(history: seq<real>, limits: seq<Bound>, i: nat)
    requires Ascending(limits) && Distinct(limits) && i <= |limits|
    ensures Collected(history, limits, i) == CountAtMost(history, Bounds(limits)[i])
  {
    if history == [] {
      EmptyIsZero(Zeroes(Bounds(limits)), Bounds(limits)[..i + 1]);
    } else {
      var n := |history| - 1;
      DistinctBoundsCollect(history[..n], limits, i);
      OneMoreCounts(Recorded(history[..n], limits), history[n], limits, i);
    }
  }

  /** An observation raises the collected value of exactly the bounds it fits. */
  lemma OneMoreCounts(m: Buckets, v: real, limits: seq<Bound>, i: nat)
    requires Covers(m, Bounds(limits))
    requires Ascending(limits) && Distinct(limits) && i <= |limits|
    ensures Cumulative(Observed(m, v, limits), Bounds(limits)[..i + 1])
         == Cumulative(m, Bounds(limits)[..i + 1]) + if Fits(v, Bounds(limits)[i]) then 1 else 0
  {
    var bounds := Bounds(limits);
    SomeBoundFits(v, limits);
    var f := FirstFit(v, bounds);
    CumulativeGrows(m, bounds[f], bounds[..i + 1]);
    OccursOnce(bounds, f, i + 1);
    FirstFitIsSorted(v, limits, f, i);
  }

  lemma {:induction false} EmptyIsZero(m: Buckets, bounds: seq<Bound>)
    requires Covers(m, bounds) && forall b | b in m :: m[b] == 0
    ensures Cumulative(m, bounds) == 0
  {
    if bounds != [] { EmptyIsZero(m, bounds[..|bounds| - 1]); }
  }

  lemma {:induction false} OccursTwice(b: Bound, bounds: seq<Bound>, i: nat, j: nat)
    requires i < j < |bounds| && bounds[i] == bounds[j] == b
    ensures Occurrences(b, bounds) >= 2
  {
    var n := |bounds| - 1;
    if j < n {
      OccursTwice(b, bounds[..n], i, j);
    } else {
      OccursAtLeastOnce(b, bounds[..n], i);
    }
  }

  lemma {:induction false} OccursAtLeastOnce(b: Bound, bounds: seq<Bound>, i: nat)
    requires i < |bounds| && bounds[i] == b
    ensures Occurrences(b, bounds) >= 1
  {
    if i < |bounds| - 1 { OccursAtLeastOnce(b, bounds[..|bounds| - 1], i); }
  }

  /** A value above every finite bound. */
  function Above(bounds: seq<Bound>): (v: real)
    ensures forall i | 0 <= i < |bounds| && bounds[i].AtMost? :: bounds[i].limit < v
  {
    if bounds == [] then 0.0
    else
      var last, rest := bounds[|bounds| - 1], Above(bounds[..|bounds| - 1]);
      if last.AtMost? && last.limit >= rest then last.limit + 1.0 else rest
  }

  /** A value that goes to the bucket at position `i`, or to an equal one. */
  function ValueFor(bounds: seq<Bound>, i: nat): real
    requires i < |bounds|
  {
    if bounds[i].AtMost? then bounds[i].limit else Above(bounds)
  }

  lemma ValueForGoesThere(limits: seq<Bound>, i: nat)
    requires Ascending(limits) && i <= |limits|
    ensures
      var bounds := Bounds(limits);
      var f := FirstFit(ValueFor(bounds, i), bounds);
      f <= |limits| && bounds[f] == bounds[i]
  {
    var bounds := Bounds(limits);
    var v := ValueFor(bounds, i);
    var f := FirstFit(v, bounds);
    SomeBoundFits(v, limits);
    assert Fits(v, bounds[i]);
    assert f <= i;
    assert AtOrBelow(bounds[f], bounds[i]);
  }

  lemma RepeatedBoundGrowsTwice(m: Buckets, limits: seq<Bound>, i: nat, j: nat)
    requires Covers(m, Bounds(limits))
    requires Ascending(limits) && i < j <= |limits| && Bounds(limits)[i] == Bounds(limits)[j]
    ensures Cumulative(Observed(m, ValueFor(Bounds(limits), i), limits), Bounds(limits)) >= 2
  {
    var bounds := Bounds(limits);
    var v := ValueFor(bounds, i);
    SomeBoundFits(v, limits);
    ValueForGoesThere(limits, i);
    var f := FirstFit(v, bounds);
    CumulativeGrows(m, bounds[f], bounds);
    OccursTwice(bounds[f], bounds, i, j);
  }

  /** A bound listed twice is counted twice: a single observation of it collects as two. */
  lemma RepeatedBoundOvercounts(limits: seq<Bound>, i: nat, j: nat)
    requires Ascending(limits) && i < j <= |limits| && Bounds(limits)[i] == Bounds(limits)[j]
    ensures Collected([ValueFor(Bounds(limits), i)], limits, |limits|) >= 2 >
            CountAtMost([ValueFor(Bounds(limits), i)], Infinite)
  {
    var v := ValueFor(Bounds(limits), i);
    RepeatedBoundGrowsTwice(Recorded([], limits), limits, i, j);
    assert [v][..0] == [];
    assert Bounds(limits)[..|limits| + 1] == Bounds(limits);
    assert CountAtMost([], Infinite) == 0;
  }

  /** Collection is counting, for every history and every bound, exactly when no bound is repeated. */
  lemma CollectsCountsIffDistinct(limits: seq<Bound>)
    requires Ascending(limits)
    ensures CollectsCounts(limits) <==> Distinct(limits)
  {
    if Distinct(limits) {
      forall history: seq<real>, i: nat | i <= |limits|
        ensures Collected(history, limits, i) == CountAtMost(history, Bounds(limits)[i])
      {
        DistinctBoundsCollect(history, limits, i);
      }
    } else {
      var i, j :| 0 <= i < j <= |limits| && Bounds(limits)[i] == Bounds(limits)[j];
      RepeatedBoundOvercounts(limits, i, j);
      assert Bounds(limits)[|limits|] == Infinite;
    }
  }

  lemma {:induction false} CountsAscend(history: seq<real>, limits: seq<Bound>, i: nat, j: nat)
    requires Ascending(limits) && i <= j <= |limits|
    ensures CountAtMost(history, Bounds(limits)[i]) <= CountAtMost(history, Bounds(limits)[j])
    ensures CountAtMost(history, Infinite) == |history|
  {
    if history != [] { CountsAscend(history[..|history| - 1], limits, i, j); }
  }

  /** The collected values never decrease from bucket to bucket, and the last is the number of
      observations. */
  lemma CollectedIsMonotone(history: seq<real>, limits: seq<Bound>, i: nat, j: nat)
    requires Ascending(limits) && Distinct(limits) && i <= j <= |limits|
    ensures Collected(history, limits, i) <= Collected(history, limits, j)
    ensures Collected(history, limits, |limits|) == |history|
  {
    DistinctBoundsCollect(history, limits, i);
    DistinctBoundsCollect(history, limits, j);
    DistinctBoundsCollect(history, limits, |limits|);
    CountsAscend(history, limits, i, j);
  }

  // ---------------------------------------------------------------- the metric object

  datatype LabelKey = LabelKey(values: seq<string>)

  /** The loop of `observe`: only the first bucket that fits is touched. */
  method AddToFirstFit(m: Buckets, value: real, limits: seq<Bound>) returns (m': Buckets)
    requires Covers(m, Bounds(limits))
    ensures m' == Observed(m, value, limits)
  {
    var bounds := Bounds(limits);
    SomeBoundFits(value, limits);
    ghost var f := FirstFit(value, bounds);
    for i := 0 to |bounds|
      invariant i <= f
    {
      if Fits(value, bounds[i]) {
        m' := m[bounds[i] := m[bounds[i]] + 1];
        return;
      }
    }
    assert false;
  }

  /** The loop of `collect`. */
  method Accumulate(m: Buckets, bounds: seq<Bound>) returns (cumulative: seq<nat>)
    requires Covers(m, bounds)
    ensures |cumulative| == |bounds|
    ensures forall i | 0 <= i < |bounds| :: cumulative[i] == Cumulative(m, bounds[..i + 1])
  {
    cumulative := [];
    var total := 0;
    for i := 0 to |bounds|
      invariant |cumulative| == i && total == Cumulative(m, bounds[..i])
      invariant forall j | 0 <= j < i :: cumulative[j] == Cumulative(m, bounds[..j + 1])
    {
      assert bounds[..i + 1][..i] == bounds[..i];
      total := total + m[bounds[i]];
      cumulative := cumulative + [total];
    }
  }

  /** The three dictionaries of a metric. */
  datatype Tables = Tables(buckets: map<LabelKey, Buckets>, counts: map<LabelKey, nat>, sums: map<LabelKey, real>)

  ghost predicate Recording(t: Tables, key: LabelKey, past: seq<real>, limits: seq<Bound>) {
    && key in t.buckets && key in t.counts && key in t.sums
    && t.buckets[key] == Recorded(past, limits) && t.counts[key] == |past| && t.sums[key] == Sum(past)
  }

  /** The dictionaries hold exactly what was observed, label key by label key. */
  ghost predicate Consistent(t: Tables, history: map<LabelKey, seq<real>>, limits: seq<Bound>) {
    forall key: LabelKey :: Agree(t, key, history, limits)
  }

  ghost predicate Agree(t: Tables, key: LabelKey, history: map<LabelKey, seq<real>>, limits: seq<Bound>) {
    if key in history then Recording(t, key, history[key], limits)
    else key !in t.buckets && key !in t.counts && key !in t.sums
  }

  function Sum(past: seq<real>): real {
    if past == [] then 0.0 else Sum(past[..|past| - 1]) + past[|past| - 1]
  }

  lemma RecordedSnoc(past: seq<real>, value: real, limits: seq<Bound>)
    ensures Recorded(past + [value], limits) == Observed(Recorded(past, limits), value, limits)
    ensures Sum(past + [value]) == Sum(past) + value
  {
    assert (past + [value])[..|past|] == past;
  }

  ghost function Past(history: map<LabelKey, seq<real>>, key: LabelKey): seq<real> {
    if key in history then history[key] else []
  }

  /** The default dictionaries give a key not seen before what no observation gives. */
  function BucketsFor(t: Tables, key: LabelKey, limits: seq<Bound>): Buckets {
    if key in t.buckets then t.buckets[key] else Zeroes(Bounds(limits))
  }

  function CountFor(t: Tables, key: LabelKey): nat {
    if key in t.counts then t.counts[key] else 0
  }

  function SumFor(t: Tables, key: LabelKey): real {
    if key in t.sums then t.sums[key] else 0.0
  }

  lemma DefaultsMatch(t: Tables, key: LabelKey, history: map<LabelKey, seq<real>>, limits: seq<Bound>)
    requires Consistent(t, history, limits)
    ensures BucketsFor(t, key, limits) == Recorded(Past(history, key), limits)
    ensures CountFor(t, key) == |Past(history, key)|
    ensures SumFor(t, key) == Sum(Past(history, key))
  {
    assert Agree(t, key, history, limits);
  }

  lemma UpdateKeepsConsistent(t: Tables, t': Tables, key: LabelKey, history: map<LabelKey, seq<real>>,
                              limits: seq<Bound>, past: seq<real>)
    requires Consistent(t, history, limits)
    requires t' == Tables(t.buckets[key := Recorded(past, limits)], t.counts[key := |past|], t.sums[key := Sum(past)])
    ensures Consistent(t', history[key := past], limits)
  {
    var history' := history[key := past];
    forall k: LabelKey ensures Agree(t', k, history', limits) {
      assert Agree(t, k, history, limits);
    }
  }

  /** One observation of a label key, on top of those already recorded for it. */
  method Record(t: Tables, key: LabelKey, value: real, ghost past: seq<real>, limits: seq<Bound>)
    returns (m: Buckets, count: nat, sum: real)
    requires BucketsFor(t, key, limits) == Recorded(past, limits)
    requires CountFor(t, key) == |past| && SumFor(t, key) == Sum(past)
    ensures m == Recorded(past + [value], limits) && count == |past + [value]| && sum == Sum(past + [value])
  {
    sum, count := SumFor(t, key) + value, CountFor(t, key) + 1;
    m := AddToFirstFit(BucketsFor(t, key, limits), value, limits);
    RecordedSnoc(past, value, limits);
  }

  class Metric {
    const limits: seq<Bound>
    var tables: Tables
    ghost var history: map<LabelKey, seq<real>>

    ghost predicate Valid()
      reads this
    {
      Ascending(limits) && Consistent(tables, history, limits)
    }

    constructor (configured: seq<Bound>)
      ensures Valid() && history == map[] && multiset(limits) == multiset(configured)
    {
      SortedKeeps(configured);
      limits := Sorted(configured);
      tables, history := Tables(map[], map[], map[]), map[];
    }

    method Observe(key: LabelKey, value: real)
      requires Valid()
      modifies this
      ensures Valid()
      ensures history == old(history)[key := Past(old(history), key) + [value]]
    {
      ghost var past := Past(history, key);
      DefaultsMatch(tables, key, history, limits);
      var m, count, sum := Record(tables, key, value, past, limits);
      var t' := Tables(tables.buckets[key := m], tables.counts[key := count], tables.sums[key := sum]);
      UpdateKeepsConsistent(tables, t', key, history, limits, past + [value]);
      tables, history := t', history[key := past + [value]];
    }

    /** The samples of one label key: each cumulative value is the count of the observations at or
        below its bound, and the last one is the count sample. */
    method Collect(key: LabelKey) returns (cumulative: seq<nat>, sum: real, count: nat)
      requires Valid() && key in tables.buckets
      ensures |cumulative| == |limits| + 1
      ensures forall i | 0 <= i <= |limits| :: cumulative[i] == Collected(Past(history, key), limits, i)
      ensures sum == Sum(Past(history, key)) && count == |Past(history, key)|
      ensures Distinct(limits) ==> cumulative[|limits|] == count
      ensures Distinct(limits) ==>
                forall i | 0 <= i <= |limits| :: cumulative[i] == CountAtMost(Past(history, key), Bounds(limits)[i])
    {
      assert Agree(tables, key, history, limits);
      cumulative := Accumulate(tables.buckets[key], Bounds(limits));
      sum, count := tables.sums[key], tables.counts[key];
      if Distinct(limits) {
        forall i | 0 <= i <= |limits| ensures cumulative[i] == CountAtMost(history[key], Bounds(limits)[i]) {
          DistinctBoundsCollect(history[key], limits, i);
        }
        CollectedIsMonotone(history[key], limits, 0, 0);
      }
    }
  }
}
