/** The steady-state budget gate over repeated paired runs, with `real` for `f64`. */
module Gate {
  import opened Model
  import opened Ordering

  type Time = nat

  const BUDGET: real := 0.02
  const MIN_RUNS: nat := 5

  datatype Interval = Interval(point: real, lower: real, upper: real)

  /** What `Estimate::new` admits: positive fields and ordered bounds. */
  type Estimate = e: Interval | e.point > 0.0 && 0.0 < e.lower <= e.upper
    witness Interval(1.0, 1.0, 1.0)

  datatype RunSample = RunSample(direct: Estimate, kernox: Estimate, directModified: Time, kernoxModified: Time)

  datatype GateError =
    | NoRuns
    | TooFewRuns(got: nat)
    | StaleDirect(run: nat)
    | StaleKernox(run: nat)
    | UnorderedRun(run: nat)       // the Kernox side is not newer than the direct side
    | OverlappingRuns(run: nat)    // the run is not newer than the one before

  datatype RunsOutcome = RunsOutcome(
    deltas: seq<real>,
    medianDelta: real,
    minSideDelta: real,
    minDelta: real,
    maxDelta: real,
    overlap: bool,
    pass: bool,
    directMin: real,
    kernoxMin: real,
    directPointMedian: real,
    kernoxPointMedian: real)

  // ----- order statistics, without sorting

  function AtMost(v: seq<real>, x: real): set<nat> {
    set i: nat | i < |v| && v[i] <= x
  }

  function AtLeast(v: seq<real>, x: real): set<nat> {
    set i: nat | i < |v| && v[i] >= x
  }

  /** `x` is a value with at least `k` others not above it and the rest not below it. */
  ghost predicate IsOrderStatistic(v: seq<real>, k: nat, x: real) {
    k < |v| && x in v && |AtMost(v, x)| >= k + 1 && |AtLeast(v, x)| >= |v| - k
  }

  ghost predicate MiddlePair(v: seq<real>, a: real, b: real) {
    |v| >= 2 && IsOrderStatistic(v, |v| / 2 - 1, a) && IsOrderStatistic(v, |v| / 2, b)
  }

  /** The middle value, or the midpoint of the two middle values. */
  ghost predicate IsMedian(v: seq<real>, m: real) {
    if |v| % 2 == 1 then IsOrderStatistic(v, |v| / 2, m)
    else exists a, b :: MiddlePair(v, a, b) && m == (a + b) / 2.0
  }

  function Indices(n: nat): (r: set<nat>)
    ensures |r| == n && forall i: nat :: i in r <==> i < n
  {
    if n == 0 then {} else Indices(n - 1) + {n - 1}
  }

  /** Sets of indices with too many elements between them meet. */
  lemma IndexSetsMeet(n: nat, a: set<nat>, b: set<nat>)
    requires a <= Indices(n) && b <= Indices(n) && |a| + |b| > n
    ensures exists i :: i in a && i in b
  {
    if a * b == {} {
      assert |a + b| == |a| + |b|;
      SubsetSize(a + b, Indices(n));
    } else {
      var i :| i in a * b;
    }
  }

  // ----- sorting a copy

  ghost predicate SortedUp(s: seq<real>) {
    forall i, j :: 0 <= i < j < |s| ==> s[i] <= s[j]
  }

  /** `s` holds the values of `v` at the positions `from`, each position once. */
  ghost predicate Rearranges(v: seq<real>, s: seq<real>, from: seq<nat>) {
    && |from| == |s| && NoRepeats(from)
    && forall k :: 0 <= k < |s| ==> from[k] < |v| && s[k] == v[from[k]]
  }

  ghost predicate SortedPrefix(v: seq<real>, n: nat, s: seq<real>, from: seq<nat>) {
    n <= |v| && |s| == n && SortedUp(s) && Rearranges(v[..n], s, from)
  }

  function Inserted<T>(s: seq<T>, j: nat, x: T): (r: seq<T>)
    requires j <= |s|
    ensures |r| == |s| + 1 && r[j] == x
    ensures forall k :: 0 <= k < j ==> r[k] == s[k]
    ensures forall k :: j < k <= |s| ==> r[k] == s[k - 1]
  {
    s[..j] + [x] + s[j..]
  }

  lemma InsertedSortedUp(s: seq<real>, j: nat, x: real)
    requires SortedUp(s) && j <= |s| && (forall k :: j <= k < |s| ==> x <= s[k]) && (j > 0 ==> s[j - 1] <= x)
    ensures SortedUp(Inserted(s, j, x))
  {
    hide Inserted;
  }

  lemma InsertedRearranges(v: seq<real>, n: nat, s: seq<real>, from: seq<nat>, j: nat)
    requires n < |v| && Rearranges(v[..n], s, from) && j <= |s|
    ensures Rearranges(v[..n + 1], Inserted(s, j, v[n]), Inserted(from, j, n))
  {
    var t, g := Inserted(s, j, v[n]), Inserted(from, j, n);
    hide Inserted;
    forall k | 0 <= k < |t|
      ensures g[k] < n + 1 && t[k] == v[..n + 1][g[k]]
    {
      if k < j { assert s[k] == v[..n][from[k]]; }
      if k > j { assert s[k - 1] == v[..n][from[k - 1]]; }
    }
    InsertedNoRepeats(from, j, n);
  }

  lemma InsertedNoRepeats(from: seq<nat>, j: nat, n: nat)
    requires NoRepeats(from) && j <= |from| && forall k :: 0 <= k < |from| ==> from[k] < n
    ensures NoRepeats(Inserted(from, j, n))
  {
    var g := Inserted(from, j, n);
    hide Inserted;
    forall a, b | 0 <= a < b < |g|
      ensures g[a] != g[b]
    {
      assert a != j && b != j ==> from[if a < j then a else a - 1] != from[if b < j then b else b - 1];
    }
  }

  lemma InsertKeepsSorted(v: seq<real>, n: nat, s: seq<real>, from: seq<nat>, j: nat)
    requires n < |v| && SortedPrefix(v, n, s, from) && j <= n
    requires (forall k :: j <= k < n ==> v[n] <= s[k]) && (j > 0 ==> s[j - 1] <= v[n])
    ensures SortedPrefix(v, n + 1, Inserted(s, j, v[n]), Inserted(from, j, n))
  {
    hide Inserted, SortedUp, Rearranges;
    InsertedSortedUp(s, j, v[n]);
    InsertedRearranges(v, n, s, from, j);
  }

  method SortedCopy(v: seq<real>) returns (sorted: seq<real>, ghost from: seq<nat>)
    ensures |sorted| == |v| && SortedUp(sorted) && Rearranges(v, sorted, from)
  {
    sorted, from := [], [];
    for n := 0 to |v|
      invariant SortedPrefix(v, n, sorted, from)
    {
      var j := n;
      while j > 0 && sorted[j - 1] > v[n]
        invariant j <= n
        invariant forall k :: j <= k < n ==> v[n] <= sorted[k]
      {
        j := j - 1;
      }
      InsertKeepsSorted(v, n, sorted, from, j);
      hide SortedPrefix;
      sorted, from := Inserted(sorted, j, v[n]), Inserted(from, j, n);
    }
    assert v[..|v|] == v;
  }

  lemma SortedHolds(v: seq<real>, s: seq<real>, from: seq<nat>, k: nat)
    requires |s| == |v| && SortedUp(s) && Rearranges(v, s, from) && k < |s|
    ensures IsOrderStatistic(v, k, s[k])
  {
    var low, high := from[..k + 1], from[k..];
    NoRepeatsCount(low);
    NoRepeatsCount(high);
    assert Elements(low) <= AtMost(v, s[k]);
    assert Elements(high) <= AtLeast(v, s[k]);
    SubsetSize(Elements(low), AtMost(v, s[k]));
    SubsetSize(Elements(high), AtLeast(v, s[k]));
  }

  method Median(v: seq<real>) returns (m: real)
    requires v != []
    ensures IsMedian(v, m)
  {
    var sorted, from := SortedCopy(v);
    var middle := |sorted| / 2;
    SortedHolds(v, sorted, from, middle);
    if |sorted| % 2 == 0 {
      SortedHolds(v, sorted, from, middle - 1);
      m := (sorted[middle - 1] + sorted[middle]) / 2.0;
      assert MiddlePair(v, sorted[middle - 1], sorted[middle]);
    } else {
      m := sorted[middle];
    }
  }

  lemma AtMostWithin(v: seq<real>, x: real)
    ensures AtMost(v, x) <= Indices(|v|) && AtLeast(v, x) <= Indices(|v|)
  {
  }

  /** Of two values, the smaller-ranked one is not larger. */
  lemma OrderStatisticsOrdered(v: seq<real>, j: nat, x: real, k: nat, y: real)
    requires IsOrderStatistic(v, j, x) && IsOrderStatistic(v, k, y) && j <= k
    ensures x <= y
  {
    AtMostWithin(v, y);
    AtMostWithin(v, x);
    IndexSetsMeet(|v|, AtMost(v, y), AtLeast(v, x));
  }

  lemma MedianIsUnique(v: seq<real>, m: real, m': real)
    requires IsMedian(v, m) && IsMedian(v, m')
    ensures m == m'
  {
    if |v| % 2 == 1 {
      OrderStatisticsOrdered(v, |v| / 2, m, |v| / 2, m');
      OrderStatisticsOrdered(v, |v| / 2, m', |v| / 2, m);
    } else {
      var a, b :| MiddlePair(v, a, b) && m == (a + b) / 2.0;
      var c, d :| MiddlePair(v, c, d) && m' == (c + d) / 2.0;
      OrderStatisticsOrdered(v, |v| / 2 - 1, a, |v| / 2 - 1, c);
      OrderStatisticsOrdered(v, |v| / 2 - 1, c, |v| / 2 - 1, a);
      OrderStatisticsOrdered(v, |v| / 2, b, |v| / 2, d);
      OrderStatisticsOrdered(v, |v| / 2, d, |v| / 2, b);
    }
  }

  // ----- what the median decides

  /** A bound is at or above the `k`-th value exactly when more than `k` values are within it. */
  lemma BoundCountsValues(v: seq<real>, k: nat, x: real, bound: real)
    requires IsOrderStatistic(v, k, x)
    ensures x <= bound <==> |AtMost(v, bound)| > k
  {
    if x <= bound {
      assert AtMost(v, x) <= AtMost(v, bound);
      SubsetSize(AtMost(v, x), AtMost(v, bound));
    } else if |AtMost(v, bound)| > k {
      AtMostWithin(v, bound);
      AtMostWithin(v, x);
      IndexSetsMeet(|v|, AtMost(v, bound), AtLeast(v, x));
    }
  }

  /** For an odd number of runs the gate passes exactly when more than half of the paired
      deltas are within the budget. */
  lemma OddGateIsMajority(deltas: seq<real>, m: real)
    requires |deltas| % 2 == 1 && IsMedian(deltas, m)
    ensures m <= BUDGET <==> 2 * |AtMost(deltas, BUDGET)| > |deltas|
  {
    BoundCountsValues(deltas, |deltas| / 2, m, BUDGET);
  }

  /** The greatest value within a bound. */
  ghost predicate GreatestWithin(v: seq<real>, bound: real, x: real) {
    x in v && x <= bound && forall y :: y in v && y <= bound ==> y <= x
  }

  /** The least value outside a bound. */
  ghost predicate LeastOutside(v: seq<real>, bound: real, x: real) {
    x in v && bound < x && forall y :: y in v && bound < y ==> x <= y
  }

  /** The greatest delta within the budget and the least one outside average to it or less. */
  ghost predicate BoundaryAverages(v: seq<real>, bound: real) {
    exists x, y :: GreatestWithin(v, bound, x) && LeastOutside(v, bound, y) && (x + y) / 2.0 <= bound
  }

  /** The value of rank `k` when exactly `k + 1` values are within the bound. */
  lemma RankIsGreatestWithin(v: seq<real>, k: nat, x: real, bound: real)
    requires IsOrderStatistic(v, k, x) && |AtMost(v, bound)| == k + 1
    ensures GreatestWithin(v, bound, x)
  {
    BoundCountsValues(v, k, x, bound);
    forall y | y in v && y <= bound
      ensures y <= x
    {
      if x < y {
        var i :| 0 <= i < |v| && v[i] == y;
        assert AtMost(v, x) <= AtMost(v, bound) - {i};
        SubsetSize(AtMost(v, x), AtMost(v, bound) - {i});
      }
    }
  }

  /** The value of rank `k` when exactly `k` values are within the bound. */
  lemma RankIsLeastOutside(v: seq<real>, k: nat, x: real, bound: real)
    requires IsOrderStatistic(v, k, x) && |AtMost(v, bound)| == k
    ensures LeastOutside(v, bound, x)
  {
    BoundCountsValues(v, k, x, bound);
    forall y | y in v && bound < y
      ensures x <= y
    {
      if y < x {
        var i :| 0 <= i < |v| && v[i] == y;
        AtMostWithin(v, bound);
        AtMostWithin(v, x);
        assert i !in AtMost(v, bound) && i !in AtLeast(v, x);
        assert |AtMost(v, bound) + {i}| == k + 1;
        IndexSetsMeet(|v|, AtMost(v, bound) + {i}, AtLeast(v, x));
      }
    }
  }

  /** For an even number of runs the gate passes exactly when more than half of the deltas
      are within the budget, or half are and the two at the boundary average to it or less. */
  lemma EvenGateIsMajorityOrBoundary(deltas: seq<real>, m: real)
    requires |deltas| % 2 == 0 && IsMedian(deltas, m)
    ensures m <= BUDGET <==>
              || 2 * |AtMost(deltas, BUDGET)| > |deltas|
              || (2 * |AtMost(deltas, BUDGET)| == |deltas| && BoundaryAverages(deltas, BUDGET))
  {
    var half := |deltas| / 2;
    var a, b :| MiddlePair(deltas, a, b) && m == (a + b) / 2.0;
    OrderStatisticsOrdered(deltas, half - 1, a, half, b);
    BoundCountsValues(deltas, half - 1, a, BUDGET);
    BoundCountsValues(deltas, half, b, BUDGET);
    hide IsOrderStatistic, AtMost, AtLeast;
    if |AtMost(deltas, BUDGET)| == half {
      RankIsGreatestWithin(deltas, half - 1, a, BUDGET);
      RankIsLeastOutside(deltas, half, b, BUDGET);
    }
  }

  /** Altering any minority of the deltas leaves the median of an odd number of runs between
      two unaltered deltas, so between the least and the greatest of them. */
  lemma MinorityCannotMoveMedian(v: seq<real>, altered: seq<real>, touched: set<nat>, m: real)
    requires |v| == |altered| && |v| % 2 == 1 && touched <= Indices(|v|) && 2 * |touched| < |v|
    requires forall i :: 0 <= i < |v| && i !in touched ==> altered[i] == v[i]
    requires IsMedian(altered, m)
    ensures exists i, j :: 0 <= i < |v| && 0 <= j < |v| && i !in touched && j !in touched && v[i] <= m <= v[j]
  {
    UntouchedMember(|v|, AtMost(altered, m), touched);
    UntouchedMember(|v|, AtLeast(altered, m), touched);
    var i :| i in AtMost(altered, m) && i !in touched;
    var j :| j in AtLeast(altered, m) && j !in touched;
    assert v[i] <= m <= v[j];
  }

  lemma UntouchedMember(n: nat, a: set<nat>, touched: set<nat>)
    requires |a| > |touched|
    ensures exists i :: i in a && i !in touched
  {
    if a <= touched { SubsetSize(a, touched); }
  }

  // ----- a uniform change of the Kernox side

  function Delta(direct: real, kernox: real): real
    requires direct > 0.0
  {
    (kernox - direct) / direct
  }

  /** The relative overhead of one pair: Kernox takes `1 + d` times as long exactly for this `d`,
      so a pair of equal points has none. */
  lemma DeltaIsRelativeOverhead(direct: real, kernox: real, d: real)
    requires direct > 0.0
    ensures d == Delta(direct, kernox) <==> kernox == direct * (1.0 + d)
    ensures Delta(direct, kernox) == 0.0 <==> kernox == direct
    ensures Delta(direct, kernox) > 0.0 <==> kernox > direct
  {
    var q := Delta(direct, kernox);
    assert q * direct == kernox - direct;
    if kernox == direct * (1.0 + d) { assert (q - d) * direct == 0.0; }
  }

  function Scaled(x: real, r: real): real {
    r * x
  }

  function Shift(x: real, r: real): real {
    r * x + (r - 1.0)
  }

  lemma ScaledDelta(direct: real, kernox: real, r: real)
    requires direct > 0.0
    ensures Delta(direct, Scaled(kernox, r)) == Shift(Delta(direct, kernox), r)
  {
    var q := Delta(direct, kernox);
    assert q * direct == kernox - direct;
    assert r * kernox - direct == (r * q + (r - 1.0)) * direct;
  }

  lemma ShiftKeepsOrder(x: real, y: real, r: real)
    requires r > 0.0
    ensures x <= y <==> Shift(x, r) <= Shift(y, r)
  {
    if x <= y { assert r * (y - x) >= 0.0; } else { assert r * (x - y) > 0.0; }
  }

  lemma ShiftKeepsRank(v: seq<real>, w: seq<real>, k: nat, x: real, r: real)
    requires r > 0.0 && |w| == |v| && (forall i :: 0 <= i < |v| ==> w[i] == Shift(v[i], r)) && IsOrderStatistic(v, k, x)
    ensures IsOrderStatistic(w, k, Shift(x, r))
  {
    forall i | 0 <= i < |v|
      ensures (v[i] <= x <==> w[i] <= Shift(x, r)) && (v[i] >= x <==> w[i] >= Shift(x, r))
    {
      ShiftKeepsOrder(v[i], x, r);
      ShiftKeepsOrder(x, v[i], r);
    }
    assert AtMost(w, Shift(x, r)) == AtMost(v, x) && AtLeast(w, Shift(x, r)) == AtLeast(v, x);
    var i :| 0 <= i < |v| && v[i] == x;
    assert w[i] == Shift(x, r);
  }

  /** Scaling every Kernox point by `r` maps the paired median `m` to `r * m + (r - 1)`. */
  lemma ScalingShiftsMedian(direct: seq<real>, kernox: seq<real>, v: seq<real>, w: seq<real>, m: real, r: real)
    requires r > 0.0 && |direct| == |kernox| == |v| == |w| && forall i :: 0 <= i < |v| ==> direct[i] > 0.0
    requires forall i :: 0 <= i < |v| ==>
        v[i] == Delta(direct[i], kernox[i]) && w[i] == Delta(direct[i], Scaled(kernox[i], r))
    requires IsMedian(v, m)
    ensures IsMedian(w, Shift(m, r))
  {
    ScaledDeltas(direct, kernox, v, w, r);
    hide Delta, IsOrderStatistic, Shift, Scaled;
    if |v| % 2 == 1 {
      ShiftKeepsRank(v, w, |v| / 2, m, r);
    } else {
      var a, b :| MiddlePair(v, a, b) && m == (a + b) / 2.0;
      ShiftKeepsRank(v, w, |v| / 2 - 1, a, r);
      ShiftKeepsRank(v, w, |v| / 2, b, r);
      assert MiddlePair(w, Shift(a, r), Shift(b, r));
      ShiftOfMidpoint(a, b, r);
    }
  }

  lemma ScaledDeltas(direct: seq<real>, kernox: seq<real>, v: seq<real>, w: seq<real>, r: real)
    requires |direct| == |kernox| == |v| == |w| && forall i :: 0 <= i < |v| ==> direct[i] > 0.0
    requires forall i :: 0 <= i < |v| ==>
        v[i] == Delta(direct[i], kernox[i]) && w[i] == Delta(direct[i], Scaled(kernox[i], r))
    ensures forall i :: 0 <= i < |v| ==> w[i] == Shift(v[i], r)
  {
    hide Delta, Shift, Scaled;
    forall i | 0 <= i < |v| ensures w[i] == Shift(v[i], r) { ScaledDelta(direct[i], kernox[i], r); }
  }

  lemma ShiftOfMidpoint(a: real, b: real, r: real)
    ensures Shift((a + b) / 2.0, r) == (Shift(a, r) + Shift(b, r)) / 2.0
  {
  }

  // ----- the whole decision

  /** All recording times, in the order the runs claim: direct 1, Kernox 1, direct 2, ... */
  function Timeline(samples: seq<RunSample>): (t: seq<Time>)
    ensures |t| == 2 * |samples|
  {
    seq(2 * |samples|, k requires 0 <= k < 2 * |samples| =>
      if k % 2 == 0 then samples[k / 2].directModified else samples[k / 2].kernoxModified)
  }

  /** One strictly increasing chain, all at or after the start of the recording. */
  ghost predicate IsChain(t: seq<Time>, notBefore: Time) {
    (forall k :: 0 <= k < |t| ==> t[k] >= notBefore) && forall j, k :: 0 <= j < k < |t| ==> t[j] < t[k]
  }

  /** What one turn of the check loop asks of run `i`. */
  predicate RunFits(samples: seq<RunSample>, notBefore: Time, i: nat)
    requires i < |samples|
  {
    && samples[i].directModified >= notBefore && samples[i].kernoxModified >= notBefore
    && samples[i].directModified < samples[i].kernoxModified
    && (i > 0 ==> samples[i - 1].kernoxModified < samples[i].directModified)
  }

  lemma {:induction false} RunsFormChain(samples: seq<RunSample>, notBefore: Time, j: nat, k: nat)
    requires (forall i: nat :: i < |samples| ==> RunFits(samples, notBefore, i)) && j < k < 2 * |samples|
    ensures Timeline(samples)[j] < Timeline(samples)[k]
    decreases k
  {
    assert RunFits(samples, notBefore, k / 2);
    if j < k - 1 { RunsFormChain(samples, notBefore, j, k - 1); }
  }

  /** The run by run checks pass exactly when the timeline is one chain. */
  lemma ChecksAreChain(samples: seq<RunSample>, notBefore: Time)
    ensures (forall i: nat :: i < |samples| ==> RunFits(samples, notBefore, i)) <==>
        IsChain(Timeline(samples), notBefore)
  {
    var t := Timeline(samples);
    if forall i: nat :: i < |samples| ==> RunFits(samples, notBefore, i) {
      forall j, k | 0 <= j < k < |t| ensures t[j] < t[k] { RunsFormChain(samples, notBefore, j, k); }
      forall k | 0 <= k < |t| ensures t[k] >= notBefore { assert RunFits(samples, notBefore, k / 2); }
    }
    if IsChain(t, notBefore) {
      forall i: nat | i < |samples|
        ensures RunFits(samples, notBefore, i)
      {
        assert t[2 * i] == samples[i].directModified && t[2 * i + 1] == samples[i].kernoxModified;
        assert i > 0 ==> t[2 * i - 1] == samples[i - 1].kernoxModified;
      }
    }
  }

  /** The first run that breaks the chain, and how. */
  ghost predicate Explains(samples: seq<RunSample>, notBefore: Time, error: GateError) {
    match error
    case NoRuns => samples == []
    case TooFewRuns(got) => got == |samples| && 0 < got < MIN_RUNS
    case StaleDirect(run) => FirstBadRun(samples, notBefore, run) && samples[run].directModified < notBefore
    case StaleKernox(run) =>
      FirstBadRun(samples, notBefore, run) && samples[run].kernoxModified < notBefore <= samples[run].directModified
    case UnorderedRun(run) =>
      FirstBadRun(samples, notBefore, run) && notBefore <= samples[run].kernoxModified <= samples[run].directModified
    case OverlappingRuns(run) =>
      && FirstBadRun(samples, notBefore, run) && run > 0
      && notBefore <= samples[run].directModified < samples[run].kernoxModified
      && samples[run].directModified <= samples[run - 1].kernoxModified
  }

  ghost predicate FirstBadRun(samples: seq<RunSample>, notBefore: Time, run: nat) {
    && MIN_RUNS <= |samples| && run < |samples|
    && !RunFits(samples, notBefore, run) && forall i: nat :: i < run ==> RunFits(samples, notBefore, i)
  }

  ghost predicate IsSmallest(v: seq<real>, x: real) {
    x in v && forall y :: y in v ==> x <= y
  }

  ghost predicate IsLargest(v: seq<real>, x: real) {
    x in v && forall y :: y in v ==> y <= x
  }

  method Smallest(v: seq<real>) returns (x: real)
    requires v != []
    ensures IsSmallest(v, x)
  {
    x := v[0];
    for i := 1 to |v|
      invariant IsSmallest(v[..i], x)
    {
      if v[i] < x { x := v[i]; }
      assert v[..i + 1] == v[..i] + [v[i]];
    }
    assert v[..|v|] == v;
  }

  method Largest(v: seq<real>) returns (x: real)
    requires v != []
    ensures IsLargest(v, x)
  {
    x := v[0];
    for i := 1 to |v|
      invariant IsLargest(v[..i], x)
    {
      if v[i] > x { x := v[i]; }
      assert v[..i + 1] == v[..i] + [v[i]];
    }
    assert v[..|v|] == v;
  }

  function DirectPoints(samples: seq<RunSample>): seq<real> { Fields(samples, (x: RunSample) => x.direct.point) }
  function KernoxPoints(samples: seq<RunSample>): seq<real> { Fields(samples, (x: RunSample) => x.kernox.point) }

  ghost predicate AreDeltas(samples: seq<RunSample>, deltas: seq<real>) {
    |deltas| == |samples| && forall i :: 0 <= i < |samples| ==>
        deltas[i] == Delta(samples[i].direct.point, samples[i].kernox.point)
  }

  function Fields(samples: seq<RunSample>, f: RunSample -> real): (r: seq<real>)
    ensures |r| == |samples|
  {
    seq(|samples|, i requires 0 <= i < |samples| => f(samples[i]))
  }

  function DirectLowers(samples: seq<RunSample>): seq<real> { Fields(samples, (x: RunSample) => x.direct.lower) }
  function DirectUppers(samples: seq<RunSample>): seq<real> { Fields(samples, (x: RunSample) => x.direct.upper) }
  function KernoxLowers(samples: seq<RunSample>): seq<real> { Fields(samples, (x: RunSample) => x.kernox.lower) }
  function KernoxUppers(samples: seq<RunSample>): seq<real> { Fields(samples, (x: RunSample) => x.kernox.upper) }

  ghost predicate SomeBelow(lowers: seq<real>, uppers: seq<real>) {
    exists i, j :: 0 <= i < |lowers| && 0 <= j < |uppers| && lowers[i] <= uppers[j]
  }

  /** Some direct interval starts no later than some Kernox interval ends, and the other way round. */
  ghost predicate RangesMeet(samples: seq<RunSample>) {
    SomeBelow(DirectLowers(samples), KernoxUppers(samples)) && SomeBelow(KernoxLowers(samples), DirectUppers(samples))
  }

  ghost predicate OutcomeFits(samples: seq<RunSample>, o: RunsOutcome) {
    && samples != [] && AreDeltas(samples, o.deltas) && IsMedian(o.deltas, o.medianDelta)
    && o.pass == (o.medianDelta <= BUDGET)
    && IsSmallest(o.deltas, o.minDelta) && IsLargest(o.deltas, o.maxDelta) && o.overlap == RangesMeet(samples)
    && IsSmallest(DirectPoints(samples), o.directMin) && IsSmallest(KernoxPoints(samples), o.kernoxMin)
    && o.directMin > 0.0 && o.minSideDelta == Delta(o.directMin, o.kernoxMin)
    && IsMedian(DirectPoints(samples), o.directPointMedian) && IsMedian(KernoxPoints(samples), o.kernoxPointMedian)
  }

  method CheckRuns(samples: seq<RunSample>, notBefore: Time) returns (error: Option<GateError>)
    requires |samples| >= MIN_RUNS
    ensures error.None? <==> forall i: nat :: i < |samples| ==> RunFits(samples, notBefore, i)
    ensures error.Some? ==> Explains(samples, notBefore, error.value)
  {
    for i := 0 to |samples|
      invariant forall j: nat :: j < i ==> RunFits(samples, notBefore, j)
    {
      var sample := samples[i];
      ghost var fits := RunFits(samples, notBefore, i);
      if sample.directModified < notBefore {
        return Some(StaleDirect(i));
      }
      if sample.kernoxModified < notBefore {
        return Some(StaleKernox(i));
      }
      if sample.kernoxModified <= sample.directModified {
        return Some(UnorderedRun(i));
      }
      if i > 0 && sample.directModified <= samples[i - 1].kernoxModified {
        return Some(OverlappingRuns(i));
      }
    }
    error := None;
  }

  method PairedDeltas(samples: seq<RunSample>) returns (deltas: seq<real>)
    ensures AreDeltas(samples, deltas)
  {
    deltas := [];
    for i := 0 to |samples|
      invariant |deltas| == i
      invariant forall j :: 0 <= j < i ==> deltas[j] == Delta(samples[j].direct.point, samples[j].kernox.point)
    {
      deltas := deltas + [(samples[i].kernox.point - samples[i].direct.point) / samples[i].direct.point];
    }
  }

  /** Whether the observed ranges of the two sides intersect; touching counts. */
  method Overlap(samples: seq<RunSample>) returns (overlap: bool)
    requires samples != []
    ensures overlap == RangesMeet(samples)
  {
    var directLower := Smallest(DirectLowers(samples));
    var directUpper := Largest(DirectUppers(samples));
    var kernoxLower := Smallest(KernoxLowers(samples));
    var kernoxUpper := Largest(KernoxUppers(samples));
    overlap := directLower <= kernoxUpper && kernoxLower <= directUpper;
    MeetAtExtremes(DirectLowers(samples), KernoxUppers(samples), directLower, kernoxUpper);
    MeetAtExtremes(KernoxLowers(samples), DirectUppers(samples), kernoxLower, directUpper);
  }

  lemma MeetAtExtremes(lowers: seq<real>, uppers: seq<real>, lower: real, upper: real)
    requires IsSmallest(lowers, lower) && IsLargest(uppers, upper)
    ensures lower <= upper <==> SomeBelow(lowers, uppers)
  {
    if i, j :| 0 <= i < |lowers| && 0 <= j < |uppers| && lowers[i] <= uppers[j] {
      assert lowers[i] in lowers && uppers[j] in uppers;
    }
  }

  /** Ok exactly for at least five runs whose times form one strict chain; the median of the
      paired deltas decides, and nothing else does. */
  method EvaluateRuns(samples: seq<RunSample>, notBefore: Time) returns (r: Result<RunsOutcome, GateError>)
    ensures r.Ok? <==> |samples| >= MIN_RUNS && IsChain(Timeline(samples), notBefore)
    ensures r.Err? ==> Explains(samples, notBefore, r.error)
    ensures r.Ok? ==> OutcomeFits(samples, r.value)
  {
    if samples == [] {
      return Err(NoRuns);
    }
    if |samples| < MIN_RUNS {
      return Err(TooFewRuns(|samples|));
    }
    ChecksAreChain(samples, notBefore);
    var error := CheckRuns(samples, notBefore);
    hide IsChain, RunFits, Explains, IsSmallest, IsLargest, IsMedian, RangesMeet, AreDeltas;
    if error.Some? {
      return Err(error.value);
    }
    var deltas := PairedDeltas(samples);
    var directMin := Smallest(DirectPoints(samples));
    var kernoxMin := Smallest(KernoxPoints(samples));
    SmallestIsPositive(samples, directMin);
    var minSideDelta := (kernoxMin - directMin) / directMin;
    assert |deltas| == |samples| by { DeltasLength(samples, deltas); }
    var medianDelta := Median(deltas);
    var minDelta := Smallest(deltas);
    var maxDelta := Largest(deltas);
    var overlap := Overlap(samples);
    var directPointMedian := Median(DirectPoints(samples));
    var kernoxPointMedian := Median(KernoxPoints(samples));
    r := Ok(RunsOutcome(deltas, medianDelta, minSideDelta, minDelta, maxDelta, overlap, medianDelta <= BUDGET,
                        directMin, kernoxMin, directPointMedian, kernoxPointMedian));
  }

  lemma DeltasLength(samples: seq<RunSample>, deltas: seq<real>)
    requires AreDeltas(samples, deltas)
    ensures |deltas| == |samples|
  {
  }

  lemma SmallestIsPositive(samples: seq<RunSample>, x: real)
    requires IsSmallest(DirectPoints(samples), x)
    ensures x > 0.0
  {
  }
}
