/** lib/utils.ts: `calculateStats` and the day-floored `parseExcelDate`. */
module Utils {
  import opened JsDate

  datatype Stats = Stats(min: real, max: real, avg: real)

  /** `data.reduce((a, b) => a + b, 0)`: a left fold. */
  function Sum(xs: seq<real>): real {
    if |xs| == 0 then 0.0 else Sum(xs[..|xs| - 1]) + xs[|xs| - 1]
  }

  /** `Math.min(...xs)` on a non-empty list. */
  function MinOf(xs: seq<real>): (m: real)
    requires |xs| > 0
    ensures m in xs
    ensures forall i :: 0 <= i < |xs| ==> m <= xs[i]
  {
    if |xs| == 1 then xs[0]
    else
      var m := MinOf(xs[..|xs| - 1]);
      assert forall i :: 0 <= i < |xs| - 1 ==> xs[..|xs| - 1][i] == xs[i];
      if xs[|xs| - 1] < m then xs[|xs| - 1] else m
  }

  /** `Math.max(...xs)` on a non-empty list. */
  function MaxOf(xs: seq<real>): (m: real)
    requires |xs| > 0
    ensures m in xs
    ensures forall i :: 0 <= i < |xs| ==> xs[i] <= m
  {
    if |xs| == 1 then xs[0]
    else
      var m := MaxOf(xs[..|xs| - 1]);
      assert forall i :: 0 <= i < |xs| - 1 ==> xs[..|xs| - 1][i] == xs[i];
      if xs[|xs| - 1] > m then xs[|xs| - 1] else m
  }

  /** A sum of n values lying in [lo, hi] lies in [n * lo, n * hi]. */
  lemma {:induction false} SumBetween(xs: seq<real>, lo: real, hi: real)
    requires forall i :: 0 <= i < |xs| ==> lo <= xs[i] <= hi
    ensures (|xs| as real) * lo <= Sum(xs) <= (|xs| as real) * hi
  {
    if |xs| > 0 {
      var init := xs[..|xs| - 1];
      assert forall i :: 0 <= i < |init| ==> init[i] == xs[i];
      SumBetween(init, lo, hi);
      assert (|xs| as real) * lo == (|init| as real) * lo + lo;
      assert (|xs| as real) * hi == (|init| as real) * hi + hi;
    }
  }

  /** The mean of n values lying in [lo, hi] lies in [lo, hi]. */
  lemma AverageBetween(xs: seq<real>, lo: real, hi: real)
    requires |xs| > 0
    requires forall i :: 0 <= i < |xs| ==> lo <= xs[i] <= hi
    ensures (Sum(xs) / (|xs| as real)) * (|xs| as real) == Sum(xs)
    ensures lo <= Sum(xs) / (|xs| as real) <= hi
  {
    var n := |xs| as real;
    var total := Sum(xs);
    SumBetween(xs, lo, hi);
    var avg := total / n;
    assert avg * n == total;
    assert (avg - lo) * n >= 0.0;
    assert (hi - avg) * n >= 0.0;
  }

  /** `calculateStats`: all three figures are 0 for no data; otherwise min and
      max are the smallest and largest values, avg is sum / length, and
      min <= avg <= max. */
  function CalculateStats(data: seq<real>): (r: Stats)
    ensures |data| == 0 ==> r == Stats(0.0, 0.0, 0.0)
    ensures |data| > 0 ==> r.min in data && r.max in data
    ensures forall i :: 0 <= i < |data| ==> r.min <= data[i] <= r.max
    ensures |data| > 0 ==> r.avg * (|data| as real) == Sum(data)
    ensures r.min <= r.avg <= r.max
  {
    if |data| == 0 then Stats(0.0, 0.0, 0.0)
    else
      var lo, hi := MinOf(data), MaxOf(data);
      AverageBetween(data, lo, hi);
      Stats(lo, hi, Sum(data) / (|data| as real))
  }

  lemma {:induction false} SumConcat(xs: seq<real>, ys: seq<real>)
    ensures Sum(xs + ys) == Sum(xs) + Sum(ys)
    decreases |ys|
  {
    if |ys| == 0 {
      assert xs + ys == xs;
    } else {
      assert (xs + ys)[..|xs + ys| - 1] == xs + ys[..|ys| - 1];
      SumConcat(xs, ys[..|ys| - 1]);
    }
  }

  /** Reordering the values does not change their sum. */
  lemma {:induction false} SumPermutation(a: seq<real>, b: seq<real>)
    requires multiset(a) == multiset(b)
    ensures Sum(a) == Sum(b)
    decreases |a|
  {
    if |a| == 0 {
      assert |b| == |multiset(b)| == 0;
    } else {
      var x := a[|a| - 1];
      var init := a[..|a| - 1];
      assert a == init + [x];
      assert x in multiset(b);
      var k :| 0 <= k < |b| && b[k] == x;
      var rest := b[..k] + b[k + 1..];
      assert b == b[..k] + [x] + b[k + 1..];
      assert multiset(a) == multiset(init) + multiset{x};
      assert multiset(rest) == multiset(b[..k]) + multiset(b[k + 1..]);
      assert multiset(b) == multiset(b[..k]) + multiset{x} + multiset(b[k + 1..]);
      assert multiset(init) == multiset(a) - multiset{x};
      assert multiset(rest) == multiset(b) - multiset{x};
      SumPermutation(init, rest);
      SumConcat(b[..k] + [x], b[k + 1..]);
      SumConcat(b[..k], [x]);
      SumConcat(b[..k], b[k + 1..]);
      assert Sum([x]) == x by {
        assert [x][..0] == [];
      }
    }
  }

  /** `calculateStats` does not depend on the order of its input. */
  lemma StatsPermutation(a: seq<real>, b: seq<real>)
    requires multiset(a) == multiset(b)
    ensures CalculateStats(a) == CalculateStats(b)
  {
    assert |a| == |multiset(a)| == |multiset(b)| == |b|;
    if |a| > 0 {
      var sa, sb := CalculateStats(a), CalculateStats(b);
      assert sa.min in multiset(b) && sb.min in multiset(a);
      assert sa.max in multiset(b) && sb.max in multiset(a);
      SumPermutation(a, b);
    }
  }

  /** A single value is its own minimum, maximum and average. */
  lemma StatsSingleton(x: real)
    ensures CalculateStats([x]) == Stats(x, x, x)
  {
  }

  /** The cases of the statistics tests. */
  lemma StatsExampleRising()
    ensures CalculateStats([10.0, 20.0, 30.0, 40.0, 50.0]) == Stats(10.0, 50.0, 30.0)
  {
    var a := [10.0, 20.0, 30.0, 40.0, 50.0];
    assert Sum(a[..1]) == 10.0 by { assert a[..1][..0] == []; }
    assert Sum(a[..2]) == 30.0 by { assert a[..2][..1] == a[..1]; }
    assert Sum(a[..3]) == 60.0 by { assert a[..3][..2] == a[..2]; }
    assert Sum(a[..4]) == 100.0 by { assert a[..4][..3] == a[..3]; }
    assert Sum(a) == 150.0;
    var r := CalculateStats(a);
    assert r.min <= a[0] && r.max >= a[4];
    assert r.avg * 5.0 == 150.0;
  }

  lemma StatsExampleSymmetric()
    ensures CalculateStats([-10.0, -5.0, 0.0, 5.0, 10.0]) == Stats(-10.0, 10.0, 0.0)
    ensures CalculateStats([]) == Stats(0.0, 0.0, 0.0)
  {
    var b := [-10.0, -5.0, 0.0, 5.0, 10.0];
    assert Sum(b[..1]) == -10.0 by { assert b[..1][..0] == []; }
    assert Sum(b[..2]) == -15.0 by { assert b[..2][..1] == b[..1]; }
    assert Sum(b[..3]) == -15.0 by { assert b[..3][..2] == b[..2]; }
    assert Sum(b[..4]) == -10.0 by { assert b[..4][..3] == b[..3]; }
    assert Sum(b) == 0.0;
    var r := CalculateStats(b);
    assert r.min <= b[0] && r.max >= b[4];
    assert r.avg * 5.0 == 0.0;
  }

  /** The day count `Math.floor(serial - 25569)` in milliseconds: the UTC
      midnight that `parseExcelDate` starts from. */
  function DayStart(serial: real): (ms: real)
    ensures ms <= (serial - ExcelEpochOffset as real) * (MsPerDay as real) < ms + MsPerDay as real
    ensures ms == ms.Floor as real && ms.Floor % MsPerDay == 0
  {
    var days := (serial - ExcelEpochOffset as real).Floor;
    assert days as real * (MsPerDay as real) <= (serial - ExcelEpochOffset as real) * (MsPerDay as real);
    assert (serial - ExcelEpochOffset as real) * (MsPerDay as real) < (days as real + 1.0) * (MsPerDay as real);
    (days * 86400 * 1000) as real
  }

  /** `parseExcelDate` (lib/utils.ts): the UTC midnight of the serial's day, then
      rebuilt as a local-time midnight from its calendar fields; that rebuilding
      depends on the time zone and is the parameter `localMidnight`. */
  function ParseExcelDate(serial: real, localMidnight: int -> Date): (d: Date)
    ensures var days := serial.Floor - ExcelEpochOffset;
      && (-MaxTime <= days * MsPerDay <= MaxTime ==> d == localMidnight(days * MsPerDay))
      && (days * MsPerDay < -MaxTime || days * MsPerDay > MaxTime ==> d == Invalid)
  {
    DayStartIsWholeDays(serial);
    var info := TimeClip(DayStart(serial));
    if info.Invalid? then Invalid else localMidnight(info.ms)
  }

  /** The day start is the whole number of days from the epoch, in milliseconds,
      so the truncation in `new Date` leaves it as it is. */
  lemma DayStartIsWholeDays(serial: real)
    ensures DayStart(serial) == ((serial.Floor - ExcelEpochOffset) * MsPerDay) as real
    ensures Trunc(DayStart(serial)) == (serial.Floor - ExcelEpochOffset) * MsPerDay
  {
    assert (serial - ExcelEpochOffset as real).Floor == serial.Floor - ExcelEpochOffset;
    var n := (serial.Floor - ExcelEpochOffset) * MsPerDay;
    assert Trunc(n as real) == n;
  }

  /** Only the whole part of the serial matters: the fraction (time of day) is
      dropped, and the starting instant is a whole number of days from the epoch. */
  lemma ParseExcelDateFloors(s1: real, s2: real, localMidnight: int -> Date)
    requires s1.Floor == s2.Floor
    ensures ParseExcelDate(s1, localMidnight) == ParseExcelDate(s2, localMidnight)
    ensures DayStart(s1) == ((s1.Floor - ExcelEpochOffset) * MsPerDay) as real
  {
    assert (s1 - ExcelEpochOffset as real).Floor == s1.Floor - ExcelEpochOffset;
    assert (s2 - ExcelEpochOffset as real).Floor == s2.Floor - ExcelEpochOffset;
  }
}
