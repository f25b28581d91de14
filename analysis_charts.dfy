/** The data preparation of the analysis charts
    (components/analysis-charts.tsx, lines 36-62): the prop fallbacks, the
    ten-bucket brightness histogram, the cluster series and the anomaly
    sample of at most ten stars. */
module AnalysisCharts {
  import opened Types
  import opened Text

  datatype Props = Props(
    analysis: Option<AnalysisResult>,
    stars: Option<seq<Star>>,
    clusterCount: Option<int>,
    anomalyCount: Option<int>,
    discoveryScore: Option<int>)

  /** `prop ?? fromAnalysis ?? 0`: a supplied prop wins even when it is 0. */
  function Coalesce(prop: Option<int>, fromAnalysis: Option<int>): (r: int)
    ensures prop.Some? ==> r == prop.value
    ensures prop.None? && fromAnalysis.Some? ==> r == fromAnalysis.value
    ensures prop.None? && fromAnalysis.None? ==> r == 0
  {
    if prop.Some? then prop.value else if fromAnalysis.Some? then fromAnalysis.value else 0
  }

  function ClusterCountOf(p: Props): int {
    Coalesce(p.clusterCount, if p.analysis.Some? then Some(p.analysis.value.clusterCount) else None)
  }

  function AnomalyCountOf(p: Props): int {
    Coalesce(p.anomalyCount, if p.analysis.Some? then Some(p.analysis.value.anomalyCount) else None)
  }

  function DiscoveryScoreOf(p: Props): int {
    Coalesce(p.discoveryScore, if p.analysis.Some? then Some(p.analysis.value.discoveryScore) else None)
  }

  /** The series the charts draw, derived from the props. */
  datatype ChartData = ChartData(
    brightness: seq<Bucket>,
    clusters: seq<string>,
    anomalies: seq<AnomalyPoint>,
    anomalyCount: int,
    discoveryScore: int)

  /** Ten histogram buckets, one cluster entry per cluster (none for a
      count of 0 or less), an anomaly sample of at most ten points that is
      empty exactly when there are no stars, and the two coalesced figures. */
  function ChartsOf(p: Props): (r: ChartData)
    ensures |r.brightness| == BucketCount
    ensures |r.clusters| == if ClusterCountOf(p) > 0 then ClusterCountOf(p) else 0
    ensures |r.anomalies| <= 10
    ensures |r.anomalies| == 0 <==> |StarsOf(p.stars, p.analysis)| == 0
    ensures r.anomalyCount == AnomalyCountOf(p) && r.discoveryScore == DiscoveryScoreOf(p)
  {
    var stars := StarsOf(p.stars, p.analysis);
    AnomalySampleBounds(stars);
    ChartData(BrightnessData(stars), ClusterLabels(ClusterCountOf(p)), AnomalyData(stars),
      AnomalyCountOf(p), DiscoveryScoreOf(p))
  }

  /** An explicit zero prop empties the cluster series whatever the analysis says. */
  lemma ZeroPropWins(p: Props)
    requires p.clusterCount == Some(0)
    ensures ChartsOf(p).clusters == []
  {
  }

  // ---------------------------------------------------------------------
  // Brightness histogram

  const BucketCount: nat := 10

  datatype Bucket = Bucket(caption: string, count: nat)

  predicate InRange(s: Star, lo: real, hi: real) {
    lo <= s.brightness < hi
  }

  /** The number of stars whose brightness lies in [lo, hi). */
  function CountIn(stars: seq<Star>, lo: real, hi: real): (n: nat)
    ensures n <= |stars|
  {
    if |stars| == 0 then 0
    else
      var last := |stars| - 1;
      CountIn(stars[..last], lo, hi) + (if InRange(stars[last], lo, hi) then 1 else 0)
  }

  function BucketLabel(i: nat): string {
    NatToDecimal(i) + "-" + NatToDecimal(i + 1)
  }

  /** `brightnessData`: bucket i counts the stars with i <= brightness < i + 1. */
  function BrightnessData(stars: seq<Star>): (r: seq<Bucket>)
    ensures |r| == BucketCount
    ensures forall i :: 0 <= i < BucketCount ==> r[i] == Bucket(BucketLabel(i), CountIn(stars, i as real, (i + 1) as real))
  {
    seq(BucketCount, i requires 0 <= i < BucketCount => Bucket(BucketLabel(i), CountIn(stars, i as real, (i + 1) as real)))
  }

  /** Counting over [lo, hi) is counting over [lo, mid) and then over [mid, hi). */
  lemma {:induction false} CountSplit(stars: seq<Star>, lo: real, mid: real, hi: real)
    requires lo <= mid <= hi
    ensures CountIn(stars, lo, hi) == CountIn(stars, lo, mid) + CountIn(stars, mid, hi)
  {
    if |stars| > 0 {
      CountSplit(stars[..|stars| - 1], lo, mid, hi);
    }
  }

  function TotalOf(buckets: seq<Bucket>): nat {
    if |buckets| == 0 then 0 else TotalOf(buckets[..|buckets| - 1]) + buckets[|buckets| - 1].count
  }

  /** The buckets are disjoint and cover [0, 10): their counts add up to the
      number of stars with brightness in [0, 10), which is at most |stars|. */
  lemma HistogramTotal(stars: seq<Star>)
    ensures TotalOf(BrightnessData(stars)) == CountIn(stars, 0.0, 10.0) <= |stars|
  {
    var r := BrightnessData(stars);
    CountEmptyRange(stars, 0.0);
    assert r[..0] == [];
    for k := 0 to BucketCount
      invariant TotalOf(r[..k]) == CountIn(stars, 0.0, k as real)
    {
      HistogramStep(stars, r, k);
    }
    assert r[..BucketCount] == r;
  }

  lemma {:induction false} CountEmptyRange(stars: seq<Star>, lo: real)
    ensures CountIn(stars, lo, lo) == 0
  {
    if |stars| > 0 {
      CountEmptyRange(stars[..|stars| - 1], lo);
    }
  }

  lemma HistogramStep(stars: seq<Star>, r: seq<Bucket>, k: nat)
    requires r == BrightnessData(stars) && k < BucketCount
    requires TotalOf(r[..k]) == CountIn(stars, 0.0, k as real)
    ensures TotalOf(r[..k + 1]) == CountIn(stars, 0.0, (k + 1) as real)
  {
    var prefix := r[..k + 1];
    assert prefix[..k] == r[..k];
    assert TotalOf(prefix) == TotalOf(r[..k]) + r[k].count;
    CountSplit(stars, 0.0, k as real, (k + 1) as real);
  }

  /** A star falls in at most one bucket. */
  lemma BucketsDisjoint(s: Star, i: int, j: int)
    requires InRange(s, i as real, (i + 1) as real) && InRange(s, j as real, (j + 1) as real)
    ensures i == j
  {
  }

  /** A star with brightness below 0 or from 10 up falls in no bucket, so
      adding it leaves the histogram unchanged. */
  lemma OutOfRangeStarUncounted(stars: seq<Star>, s: Star)
    requires s.brightness < 0.0 || s.brightness >= 10.0
    ensures BrightnessData(stars + [s]) == BrightnessData(stars)
  {
    var after, before := BrightnessData(stars + [s]), BrightnessData(stars);
    forall i | 0 <= i < BucketCount
      ensures after[i] == before[i]
    {
      CountAppendOutside(stars, s, i as real, (i + 1) as real);
    }
  }

  lemma CountAppendOutside(stars: seq<Star>, s: Star, lo: real, hi: real)
    requires !InRange(s, lo, hi)
    ensures CountIn(stars + [s], lo, hi) == CountIn(stars, lo, hi)
  {
    assert (stars + [s])[..|stars|] == stars;
  }

  // ---------------------------------------------------------------------
  // Cluster series

  /** `clusterData` without its random sizes and densities: one entry
      "Cluster k" per cluster; a negative count gives an empty series. */
  function ClusterLabels(clusterCount: int): (r: seq<string>)
    ensures |r| == if clusterCount > 0 then clusterCount else 0
    ensures forall i :: 0 <= i < |r| ==> r[i] == "Cluster " + NatToDecimal(i + 1)
  {
    if clusterCount <= 0 then []
    else seq(clusterCount, i requires 0 <= i < clusterCount => "Cluster " + NatToDecimal(i + 1))
  }

  // ---------------------------------------------------------------------
  // Anomaly sample

  /** `Math.round`: halves round up. */
  function Round(x: real): (r: int)
    ensures r as real - 0.5 <= x < r as real + 0.5
  {
    (x + 0.5).Floor
  }

  /** `Math.ceil(n / 10)`. */
  function Stride(n: nat): (s: nat)
    ensures 10 * s >= n && (n > 0 ==> s > 0)
  {
    (n + 9) / 10
  }

  /** `i % stride === 0`; with a zero stride the remainder is NaN and nothing is kept. */
  predicate Kept(i: nat, stride: nat) {
    stride != 0 && i % stride == 0
  }

  /** The kept positions below n, in increasing order. */
  function SampledIndices(n: nat, stride: nat): (r: seq<nat>)
    ensures forall k :: 0 <= k < |r| ==> r[k] < n && Kept(r[k], stride)
  {
    if n == 0 then []
    else SampledIndices(n - 1, stride) + (if Kept(n - 1, stride) then [n - 1] else [])
  }

  /** Conversely, every index below n that the stride keeps is sampled. */
  lemma {:induction false} SampledComplete(n: nat, stride: nat, i: nat)
    requires i < n && Kept(i, stride)
    ensures i in SampledIndices(n, stride)
  {
    if i < n - 1 {
      SampledComplete(n - 1, stride, i);
    }
  }

  datatype AnomalyPoint = AnomalyPoint(id: nat, ra: int, brightness: int)

  /** `anomalyData` without its random scores: the id is the position in the
      sample, not in the star list. */
  function AnomalyData(stars: seq<Star>): (r: seq<AnomalyPoint>)
    ensures var idx := SampledIndices(|stars|, Stride(|stars|));
      |r| == |idx| &&
      forall k :: 0 <= k < |r| ==>
        r[k] == AnomalyPoint(k, Round(stars[idx[k]].ra), Round(stars[idx[k]].brightness * 10.0))
  {
    var idx := SampledIndices(|stars|, Stride(|stars|));
    seq(|idx|, k requires 0 <= k < |idx| => AnomalyPoint(k, Round(stars[idx[k]].ra), Round(stars[idx[k]].brightness * 10.0)))
  }

  lemma MulAtLeast(k: int, c: int, s: int)
    requires k >= c >= 0 && s > 0
    ensures k * s >= c * s
  {
    assert k * s - c * s == (k - c) * s;
  }

  lemma DivUnique(a: nat, s: nat, q: nat, r: nat)
    requires s > 0 && a == q * s + r && r < s
    ensures a / s == q && a % s == r
  {
    var q0, r0 := a / s, a % s;
    assert a == q0 * s + r0;
    if q > q0 {
      assert q0 * s + s == (q0 + 1) * s;
      MulAtLeast(q, q0 + 1, s);
    } else if q < q0 {
      assert q * s + s == (q + 1) * s;
      MulAtLeast(q0, q + 1, s);
    }
  }

  lemma DivStep(m: nat, s: nat)
    requires s > 0
    ensures (m + s) / s == (m + s - 1) / s + (if m % s == 0 then 1 else 0)
  {
    var q, r := m / s, m % s;
    assert m == q * s + r;
    DivUnique(m + s, s, q + 1, r);
    if r == 0 {
      DivUnique(m + s - 1, s, q, s - 1);
    } else {
      DivUnique(m + s - 1, s, q + 1, r - 1);
    }
  }

  /** With a positive stride, the positions kept below n are the ceil(n / stride) multiples of it. */
  lemma {:induction false} SampledCount(n: nat, stride: nat)
    requires stride > 0
    ensures |SampledIndices(n, stride)| == (n + stride - 1) / stride
  {
    if n == 0 {
      DivUnique(stride - 1, stride, 0, stride - 1);
    } else {
      SampledCount(n - 1, stride);
      DivStep(n - 1, stride);
    }
  }

  /** The sample is empty exactly for an empty star list, starts at star 0
      otherwise, and never holds more than ten points. */
  lemma AnomalySampleBounds(stars: seq<Star>)
    ensures |AnomalyData(stars)| == 0 <==> |stars| == 0
    ensures |stars| > 0 ==> SampledIndices(|stars|, Stride(|stars|))[0] == 0
    ensures |AnomalyData(stars)| <= 10
  {
    var n := |stars|;
    if n > 0 {
      var s := Stride(n);
      SampledCount(n, s);
      SampledStartsAtZero(n, s);
      CeilAtMostTen(n, s);
    }
  }

  /** n + s - 1 < 11 s once 10 s >= n, so ceil(n / s) <= 10. */
  lemma CeilAtMostTen(n: nat, s: nat)
    requires s > 0 && 10 * s >= n
    ensures (n + s - 1) / s <= 10
  {
    var a := n + s - 1;
    var q := a / s;
    assert a == q * s + a % s;
    if q > 10 {
      MulAtLeast(q, 11, s);
    }
  }

  lemma {:induction false} SampledStartsAtZero(n: nat, stride: nat)
    requires n > 0 && stride > 0
    ensures |SampledIndices(n, stride)| > 0 && SampledIndices(n, stride)[0] == 0
  {
    if n > 1 {
      SampledStartsAtZero(n - 1, stride);
    }
  }
}
