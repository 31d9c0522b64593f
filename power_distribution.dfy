/** components/charts/power-distribution.tsx: the six power ranges of the
    histogram and the counting pass that fills them. */
module PowerDistribution {
  import opened Wrappers
  import opened Records

  /** One `powerRanges` entry; a missing `max` is `Infinity`. */
  datatype PowerRange = PowerRange(min: real, max: Option<real>, caption: string)

  const RangeCount: nat := 6

  /** The ranges in chart order, each half-open: min <= p < max. */
  const PowerRanges: seq<PowerRange> := [
    PowerRange(0.0, Some(2.0), "0-2W"),
    PowerRange(2.0, Some(4.0), "2-4W"),
    PowerRange(4.0, Some(6.0), "4-6W"),
    PowerRange(6.0, Some(8.0), "6-8W"),
    PowerRange(8.0, Some(10.0), "8-10W"),
    PowerRange(10.0, None, ">10W")
  ]

  /** `power >= r.min && power < r.max`. */
  predicate InRange(p: real, r: PowerRange) {
    p >= r.min && (r.max.None? || p < r.max.value)
  }

  /** `powerRanges.find(...)` from index k on: the first range holding p. */
  function FindFrom(p: real, k: nat): (r: Option<nat>)
    requires k <= RangeCount
    ensures r.Some? ==> k <= r.value < RangeCount && InRange(p, PowerRanges[r.value])
    ensures r.Some? ==> forall j :: k <= j < r.value ==> !InRange(p, PowerRanges[j])
    ensures r.None? ==> forall j :: k <= j < RangeCount ==> !InRange(p, PowerRanges[j])
    decreases RangeCount - k
  {
    if k == RangeCount then None
    else if InRange(p, PowerRanges[k]) then Some(k)
    else FindFrom(p, k + 1)
  }

  function FindRange(p: real): Option<nat> {
    FindFrom(p, 0)
  }

  /** The same classification written as the chain of comparisons the chart
      tests use. */
  function BucketOf(p: real): Option<nat> {
    if p < 0.0 then None
    else if p < 2.0 then Some(0)
    else if p < 4.0 then Some(1)
    else if p < 6.0 then Some(2)
    else if p < 8.0 then Some(3)
    else if p < 10.0 then Some(4)
    else Some(5)
  }

  /** The first-match search agrees with the comparison chain on every value. */
  lemma FindRangeIsBucketOf(p: real)
    ensures FindRange(p) == BucketOf(p)
  {
    var r := FindRange(p);
    if r.Some? {
      assert r.value == 0 || !InRange(p, PowerRanges[0]);
      assert r.value <= 1 || !InRange(p, PowerRanges[1]);
      assert r.value <= 2 || !InRange(p, PowerRanges[2]);
      assert r.value <= 3 || !InRange(p, PowerRanges[3]);
      assert r.value <= 4 || !InRange(p, PowerRanges[4]);
    } else {
      assert !InRange(p, PowerRanges[0]) && !InRange(p, PowerRanges[5]);
    }
  }

  /** The ranges do not overlap and leave no gap from 0 on: a value lies in a
      range exactly when the search picks that range, and every non-negative
      value is counted. */
  lemma RangesPartition(p: real, k: nat)
    requires k < RangeCount
    ensures InRange(p, PowerRanges[k]) <==> FindRange(p) == Some(k)
    ensures FindRange(p).Some? <==> p >= 0.0
  {
    FindRangeIsBucketOf(p);
  }

  /** Boundaries belong to the upper range; negative power is not counted. */
  lemma Boundaries(p: real)
    requires p < 0.0
    ensures FindRange(2.0) == Some(1)
    ensures FindRange(10.0) == Some(5)
    ensures FindRange(0.0) == Some(0)
    ensures FindRange(p) == None
  {
    FindRangeIsBucketOf(2.0);
    FindRangeIsBucketOf(10.0);
    FindRangeIsBucketOf(0.0);
    FindRangeIsBucketOf(p);
  }

  /** `d.power || 0`. */
  function PowerOf(d: DataPoint): real {
    OrZero(d.power)
  }

  /** How many of the points land in range k (counted from the end, as the
      loop sees a growing prefix). */
  function CountIn(data: seq<DataPoint>, k: nat): nat {
    if |data| == 0 then 0
    else CountIn(data[..|data| - 1], k) + (if FindRange(PowerOf(data[|data| - 1])) == Some(k) then 1 else 0)
  }

  /** The six counts of the histogram. */
  function Histogram(data: seq<DataPoint>): seq<nat> {
    seq(RangeCount, k requires 0 <= k < RangeCount => CountIn(data, k))
  }

  /** The counting pass: every range starts at 0 and each point adds one to
      the first range that holds its power, if any. */
  method CountPowerRanges(data: seq<DataPoint>) returns (counts: seq<nat>)
    ensures |counts| == RangeCount
    ensures counts == Histogram(data)
  {
    var ranges := new nat[RangeCount](_ => 0);
    var i := 0;
    while i < |data|
      invariant 0 <= i <= |data|
      invariant forall k :: 0 <= k < RangeCount ==> ranges[k] == CountIn(data[..i], k)
    {
      var power := PowerOf(data[i]);
      var j := 0;
      var found: Option<nat> := None;
      while j < RangeCount && found.None?
        invariant 0 <= j <= RangeCount
        invariant found.None? ==> forall m :: 0 <= m < j ==> !InRange(power, PowerRanges[m])
        invariant found.None? ==> FindFrom(power, j) == FindRange(power)
        invariant found.Some? ==> found == FindRange(power)
      {
        if InRange(power, PowerRanges[j]) {
          found := Some(j);
        }
        j := j + 1;
      }
      assert data[..i + 1][..i] == data[..i];
      if found.Some? {
        ranges[found.value] := ranges[found.value] + 1;
      }
      i := i + 1;
    }
    assert data[..|data|] == data;
    counts := ranges[..];
  }

  /** Adding one point adds one to the count of its range and leaves the
      other counts as they were. */
  lemma CountStep(data: seq<DataPoint>, i: nat)
    requires i < |data|
    ensures forall k :: 0 <= k < RangeCount ==>
      CountIn(data[..i + 1], k) == CountIn(data[..i], k) + (if BucketOf(PowerOf(data[i])) == Some(k) then 1 else 0)
  {
    assert data[..i + 1][..i] == data[..i];
    FindRangeIsBucketOf(PowerOf(data[i]));
  }

  /** How many points have a normalised power of at least 0. */
  function NonNegativeCount(data: seq<DataPoint>): nat {
    if |data| == 0 then 0
    else NonNegativeCount(data[..|data| - 1]) + (if PowerOf(data[|data| - 1]) >= 0.0 then 1 else 0)
  }

  /** The sum of the six counts. */
  function Total(data: seq<DataPoint>): nat {
    var h := Histogram(data);
    h[0] + h[1] + h[2] + h[3] + h[4] + h[5]
  }

  /** Every point is counted at most once, and exactly those with power >= 0
      are counted. */
  lemma {:induction false} TotalIsNonNegativeCount(data: seq<DataPoint>)
    ensures Total(data) == NonNegativeCount(data)
  {
    if |data| > 0 {
      var n := |data| - 1;
      TotalIsNonNegativeCount(data[..n]);
      CountStep(data, n);
      assert data[..n + 1] == data;
    }
  }

  function Point(p: real): DataPoint {
    DataPoint("", Null, "", Null, Null, Real(p), Null, Null)
  }

  /** One step of the counting pass, on the histogram as a whole. */
  lemma HistogramStep(data: seq<DataPoint>, i: nat, k: nat)
    requires i < |data| && k < RangeCount
    requires BucketOf(PowerOf(data[i])) == Some(k)
    ensures Histogram(data[..i + 1]) == Histogram(data[..i])[k := Histogram(data[..i])[k] + 1]
  {
    CountStep(data, i);
  }

  /** The powers of the distribution example in the chart tests. */
  const ChartPoints: seq<DataPoint> :=
    [Point(1.5), Point(2.8), Point(3.2), Point(5.5), Point(7.8), Point(9.2), Point(11.5)]

  lemma ChartFirstHalf()
    ensures Histogram(ChartPoints[..3]) == [1, 2, 0, 0, 0, 0]
  {
    var d := ChartPoints;
    assert Histogram(d[..0]) == [0, 0, 0, 0, 0, 0];
    HistogramStep(d, 0, 0);
    HistogramStep(d, 1, 1);
    HistogramStep(d, 2, 1);
  }

  lemma ChartSecondQuarter()
    ensures Histogram(ChartPoints[..5]) == [1, 2, 1, 1, 0, 0]
  {
    var d := ChartPoints;
    ChartFirstHalf();
    HistogramStep(d, 3, 2);
    HistogramStep(d, 4, 3);
  }

  /** The example's counts: one point in each range except two in 2-4W. */
  lemma ChartExample()
    ensures Histogram(ChartPoints) == [1, 2, 1, 1, 1, 1]
  {
    var d := ChartPoints;
    ChartSecondQuarter();
    HistogramStep(d, 5, 4);
    HistogramStep(d, 6, 5);
    assert d[..7] == d;
  }

  /** Missing, NaN and zero power all read as 0 and fall in the first range. */
  lemma FalsyPowerInFirstRange(d: DataPoint)
    requires !d.power.Real? || d.power.r == 0.0
    ensures FindRange(PowerOf(d)) == Some(0)
  {
    FindRangeIsBucketOf(PowerOf(d));
  }

  /** `powerRanges.map(r => r.label)`: the labels in the order of the counts. */
  function Labels(): (r: seq<string>)
    ensures |r| == RangeCount
    ensures forall k :: 0 <= k < RangeCount ==> r[k] == PowerRanges[k].caption
  {
    seq(RangeCount, k requires 0 <= k < RangeCount => PowerRanges[k].caption)
  }
}
