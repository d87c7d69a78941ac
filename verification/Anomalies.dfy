/**
 Z-score anomaly detection (`get_recent_anomalies`), over the reals.
 */
module Anomalies {
  import opened Rounding

  /** The daily e-mail count inside a snapshot's metrics: missing, a number, or something `int()` rejects. */
  datatype Count = Absent | Number(n: int) | Unreadable

  datatype Snapshot = Snapshot(day: int, count: Count)

  datatype Direction = Spike | Drop

  /** The score is reported rounded to two decimals. */
  datatype Anomaly = Anomaly(day: int, observed: real, mean: real, stdev: real, hundredths: int, direction: Direction)

  function Metric(s: Snapshot): int { match s.count case Number(n) => n case _ => 0 }

  function Values(series: seq<Snapshot>): (values: seq<real>)
    ensures |values| == |series| && forall k :: 0 <= k < |series| ==> values[k] == Metric(series[k]) as real
  {
    seq(|series|, k requires 0 <= k < |series| => Metric(series[k]) as real)
  }

  function Sum(xs: seq<real>): real { if xs == [] then 0.0 else xs[0] + Sum(xs[1..]) }

  function Mean(values: seq<real>): real
    requires values != []
  {
    Sum(values) / |values| as real
  }

  function Deviations(values: seq<real>, mean: real): (ds: seq<real>)
    ensures |ds| == |values| && forall k :: 0 <= k < |values| ==> ds[k] == values[k] - mean
  {
    seq(|values|, k requires 0 <= k < |values| => values[k] - mean)
  }

  function Times(x: real, y: real): real { x * y }

  function Square(x: real): real { Times(x, x) }

  function SumSquares(xs: seq<real>): real { if xs == [] then 0.0 else Square(xs[0]) + SumSquares(xs[1..]) }

  function Variance(values: seq<real>): real
    requires values != []
  {
    SumSquares(Deviations(values, Mean(values))) / |values| as real
  }

  /** `statistics.pstdev`: the non-negative root of the population variance. */
  ghost predicate IsDeviation(pstdev: seq<real> -> real) {
    forall values: seq<real> {:trigger pstdev(values)} :: values != [] ==>
      pstdev(values) >= 0.0 && Square(pstdev(values)) == Variance(values)
  }

  /** `pstdev(values) or 1.0` */
  function Scale(sd: real): real { if sd != 0.0 then sd else 1.0 }

  function Abs(x: real): real { if x < 0.0 then -x else x }

  function ZScore(v: real, mean: real, scale: real): real
    requires scale != 0.0
  {
    (v - mean) / scale
  }

  function Verdict(day: int, v: real, mean: real, scale: real): Anomaly
    requires scale != 0.0
  {
    var z := ZScore(v, mean, scale);
    Anomaly(day, v, mean, scale, HalfEven(100.0 * z), if z > 0.0 then Spike else Drop)
  }

  /** The anomalies of a series, in its order. */
  function Detect(series: seq<Snapshot>, mean: real, scale: real): seq<Anomaly>
    requires scale != 0.0
  {
    if series == [] then []
    else
      var v := Metric(series[0]) as real;
      (if Abs(ZScore(v, mean, scale)) >= 2.0 then [Verdict(series[0].day, v, mean, scale)] else [])
      + Detect(series[1..], mean, scale)
  }

  /** Detection without the early return for short series. */
  function DetectAll(series: seq<Snapshot>, pstdev: seq<real> -> real): seq<Anomaly>
    requires series != []
  {
    Detect(series, Mean(Values(series)), Scale(pstdev(Values(series))))
  }

  method GetRecentAnomalies(series: seq<Snapshot>, pstdev: seq<real> -> real) returns (anomalies: seq<Anomaly>)
    requires IsDeviation(pstdev)
    ensures anomalies == if |series| < 5 then [] else DetectAll(series, pstdev)
    ensures series != [] ==> anomalies == DetectAll(series, pstdev)
    ensures 4 * |anomalies| <= |series|
  {
    if series != [] {
      FewFlagged(series, pstdev);
    }
    if |series| < 5 {
      return [];
    }
    var observations: seq<(int, real)> := [];
    for k := 0 to |series|
      invariant |observations| == k
      invariant forall i :: 0 <= i < k ==> observations[i] == (series[i].day, Metric(series[i]) as real)
    {
      observations := observations + [(series[k].day, Metric(series[k]) as real)];
    }
    var values := seq(|observations|, k requires 0 <= k < |observations| => observations[k].1);
    assert values == Values(series);
    var mean := Mean(values);
    var stdev := Scale(pstdev(values));
    anomalies := [];
    for k := 0 to |observations|
      invariant anomalies == Detect(series[..k], mean, stdev)
    {
      var (day, v) := observations[k];
      DetectLast(series[..k], series[k], mean, stdev);
      assert series[..k] + [series[k]] == series[..k + 1];
      if Abs(ZScore(v, mean, stdev)) >= 2.0 {
        anomalies := anomalies + [Verdict(day, v, mean, stdev)];
      }
    }
    assert series[..|observations|] == series;
  }

  /** Every reported anomaly is an observation, its rounded score still reaches
      two and has the sign its direction tells. */
  lemma {:induction false} ReportsAreTrue(series: seq<Snapshot>, mean: real, scale: real, k: nat)
    requires scale != 0.0 && k < |Detect(series, mean, scale)|
    ensures var a := Detect(series, mean, scale)[k];
            && (exists i :: 0 <= i < |series| && a.day == series[i].day && a.observed == Metric(series[i]) as real)
            && (if a.direction == Spike then a.hundredths >= 200 else a.hundredths <= -200)
            && -0.5 <= a.hundredths as real - 100.0 * ZScore(a.observed, mean, scale) <= 0.5
  {
    var v := Metric(series[0]) as real;
    var z := ZScore(v, mean, scale);
    if Abs(z) >= 2.0 && k == 0 {
      HalfEvenIsNearest(100.0 * z, HalfEven(100.0 * z));
    } else {
      var k' := if Abs(z) >= 2.0 then k - 1 else k;
      ReportsAreTrue(series[1..], mean, scale, k');
      var a := Detect(series, mean, scale)[k];
      var i :| 0 <= i < |series[1..]| && a.day == series[1..][i].day && a.observed == Metric(series[1..][i]) as real;
      assert series[i + 1] == series[1..][i];
    }
  }

  lemma {:induction false} DetectLast(series: seq<Snapshot>, s: Snapshot, mean: real, scale: real)
    requires scale != 0.0
    ensures Detect(series + [s], mean, scale) == Detect(series, mean, scale) + Detect([s], mean, scale)
    ensures Detect([s], mean, scale) == if Abs(ZScore(Metric(s) as real, mean, scale)) >= 2.0
                                        then [Verdict(s.day, Metric(s) as real, mean, scale)] else []
  {
    assert [s][1..] == [];
    if series == [] {
      assert series + [s] == [s];
    } else {
      assert (series + [s])[1..] == series[1..] + [s];
      DetectLast(series[1..], s, mean, scale);
    }
  }

  // ---------------------------------------------------------------- real arithmetic

  lemma {:induction false} SumAppend(xs: seq<real>, ys: seq<real>)
    ensures Sum(xs + ys) == Sum(xs) + Sum(ys) && SumSquares(xs + ys) == SumSquares(xs) + SumSquares(ys)
  {
    if xs == [] { assert xs + ys == ys; } else { assert (xs + ys)[1..] == xs[1..] + ys; SumAppend(xs[1..], ys); }
  }

  lemma {:induction false} SquaresNonNegative(xs: seq<real>)
    ensures SumSquares(xs) >= 0.0
  {
    if xs != [] { SquaresNonNegative(xs[1..]); }
  }

  lemma PositiveProduct(a: real, b: real)
    requires a > 0.0 && b > 0.0
    ensures Times(a, b) > 0.0
  {
  }

  lemma SquarePositive(x: real)
    requires x != 0.0
    ensures Square(x) > 0.0
  {
    assert Times(-x, -x) == Times(x, x);
    if x > 0.0 { PositiveProduct(x, x); } else { PositiveProduct(-x, -x); }
  }

  lemma CauchyStep(n: real, x: real, s: real, q: real)
    requires n >= 1.0 && Square(s) <= Times(n, q)
    ensures Square(x + s) <= Times(n + 1.0, Square(x) + q)
  {
    assert Square(n * x - s) >= 0.0;
    assert Square(n * x - s) == n * (n * Square(x)) - 2.0 * (n * (x * s)) + Square(s);
    assert n * (n * Square(x) - 2.0 * (x * s) + q) >= 0.0;
    assert n * Square(x) - 2.0 * (x * s) + q >= 0.0;
    assert (n + 1.0) * (Square(x) + q) == n * Square(x) + n * q + Square(x) + q;
    assert Square(x + s) == Square(x) + 2.0 * (x * s) + Square(s);
  }

  /** The square of a sum is at most the number of terms times the sum of their squares. */
  lemma {:induction false} Cauchy(xs: seq<real>)
    ensures Square(Sum(xs)) <= Times(|xs| as real, SumSquares(xs))
  {
    if |xs| == 1 {
      assert Sum(xs[1..]) == 0.0 && SumSquares(xs[1..]) == 0.0;
    } else if xs != [] {
      Cauchy(xs[1..]);
      CauchyStep(|xs[1..]| as real, xs[0], Sum(xs[1..]), SumSquares(xs[1..]));
    }
  }

  lemma {:induction false} DeviationsSum(values: seq<real>, mean: real)
    ensures Sum(Deviations(values, mean)) == Sum(values) - |values| as real * mean
  {
    if values != [] {
      assert Deviations(values, mean)[1..] == Deviations(values[1..], mean);
      DeviationsSum(values[1..], mean);
    }
  }

  lemma DeviationsCancel(values: seq<real>)
    requires values != []
    ensures Sum(Deviations(values, Mean(values))) == 0.0
    ensures SumSquares(Deviations(values, Mean(values))) == Times(|values| as real, Variance(values))
    ensures Variance(values) >= 0.0
  {
    DeviationsSum(values, Mean(values));
    SquaresNonNegative(Deviations(values, Mean(values)));
  }

  /** An observation lies at most sqrt(n - 1) standard deviations from the mean. */
  lemma Samuelson(values: seq<real>, k: nat)
    requires k < |values|
    ensures Square(values[k] - Mean(values)) <= Times((|values| - 1) as real, Variance(values))
  {
    var ds := Deviations(values, Mean(values));
    DeviationsCancel(values);
    var rest := Others(ds, k);
    Cauchy(rest);
    assert Square(Sum(rest)) == Square(ds[k]);
    assert |rest| as real == |values| as real - 1.0;
    SamuelsonAlgebra(|values| as real, Square(ds[k]), Variance(values));
  }

  lemma Others(xs: seq<real>, k: nat) returns (rest: seq<real>)
    requires k < |xs|
    ensures |rest| == |xs| - 1
    ensures Sum(rest) == Sum(xs) - xs[k] && SumSquares(rest) == SumSquares(xs) - Square(xs[k])
  {
    rest := xs[..k] + xs[k + 1..];
    assert xs == xs[..k] + ([xs[k]] + xs[k + 1..]);
    SumAppend(xs[..k], [xs[k]] + xs[k + 1..]);
    SumAppend([xs[k]], xs[k + 1..]);
    SumAppend(xs[..k], xs[k + 1..]);
  }

  lemma SamuelsonAlgebra(n: real, d2: real, variance: real)
    requires n >= 1.0 && d2 <= Times(n - 1.0, Times(n, variance) - d2)
    ensures d2 <= Times(n - 1.0, variance)
  {
    var excess := d2 - Times(n - 1.0, variance);
    assert Times(n, excess) == d2 - Times(n - 1.0, Times(n, variance) - d2);
    if excess > 0.0 { PositiveProduct(n, excess); }
  }

  // ---------------------------------------------------------------- what is flagged

  /** An observation is flagged exactly when its squared deviation reaches four times a positive variance. */
  lemma FlaggedIff(values: seq<real>, k: nat, sd: real)
    requires k < |values| && sd >= 0.0 && Square(sd) == Variance(values)
    ensures Abs(ZScore(values[k], Mean(values), Scale(sd))) >= 2.0
            <==> Variance(values) > 0.0 && Square(values[k] - Mean(values)) >= 4.0 * Variance(values)
  {
    var d := values[k] - Mean(values);
    if sd == 0.0 {
      Samuelson(values, k);
      if d != 0.0 { SquarePositive(d); }
    } else {
      SquarePositive(sd);
      var z := d / sd;
      assert d == z * sd;
      assert Square(d) == Square(z) * Square(sd) by { assert (z * sd) * (z * sd) == (z * z) * (sd * sd); }
      AbsSquare(z);
      if Square(z) >= 4.0 {
        assert (Square(z) - 4.0) * Square(sd) >= 0.0;
      } else {
        PositiveProduct(4.0 - Square(z), Square(sd));
        assert Times(4.0 - Square(z), Square(sd)) == 4.0 * Square(sd) - Square(z) * Square(sd);
      }
    }
  }

  lemma AbsSquare(z: real)
    ensures Abs(z) >= 2.0 <==> Square(z) >= 4.0
  {
    var a := Abs(z);
    assert Square(a) == Square(z) by { assert Times(-z, -z) == Times(z, z); }
    SquareGap(a);
  }

  lemma SquareGap(a: real)
    requires a >= 0.0
    ensures a >= 2.0 <==> Square(a) >= 4.0
  {
    if a < 2.0 {
      PositiveProduct(2.0 - a, a + 2.0);
      assert Times(2.0 - a, a + 2.0) == 4.0 - Square(a);
    } else {
      assert a * a >= 2.0 * a;
    }
  }

  /** The count of a day: a missing or unreadable one is zero. */
  lemma CountsAre(day: int, n: int)
    ensures Metric(Snapshot(day, Absent)) == 0 && Metric(Snapshot(day, Unreadable)) == 0
    ensures Metric(Snapshot(day, Number(n))) == n
  {
  }

  /** The reports stand for increasing places of the series, and these are exactly the places that are flagged. */
  lemma {:induction false} ReportsAreFlagged(series: seq<Snapshot>, mean: real, scale: real) returns (at: seq<nat>)
    requires scale != 0.0
    ensures var reports := Detect(series, mean, scale);
            && |at| == |reports| && (forall i, j :: 0 <= i < j < |at| ==> at[i] < at[j])
            && (forall i :: 0 <= i < |at| ==>
                  && at[i] < |series|
                  && reports[i].day == series[at[i]].day && reports[i].observed == Metric(series[at[i]]) as real)
    ensures forall k: nat :: k in at <==>
              k < |series| && Abs(ZScore(Metric(series[k]) as real, mean, scale)) >= 2.0
    decreases |series|
  {
    at := [];
    if series != [] {
      var init, last := series[..|series| - 1], series[|series| - 1];
      at := ReportsAreFlagged(init, mean, scale);
      assert series == init + [last];
      DetectLast(init, last, mean, scale);
      if Abs(ZScore(Metric(last) as real, mean, scale)) >= 2.0 {
        at := at + [|series| - 1];
      }
    }
  }

  /** What every report says: the mean of all counts, their deviation, which is never the stand-in for a
      series without any, and a direction by the side of the mean. */
  lemma ReportsCarry(series: seq<Snapshot>, sd: real, k: nat)
    requires series != [] && sd >= 0.0 && Square(sd) == Variance(Values(series))
    requires k < |Detect(series, Mean(Values(series)), Scale(sd))|
    ensures var a := Detect(series, Mean(Values(series)), Scale(sd))[k];
            && |series| as real * a.mean == Sum(Values(series)) && a.stdev == sd > 0.0
            && (a.direction == Spike <==> a.observed > a.mean)
  {
    MeanTimes(Values(series));
    ReportsSpread(series, sd, k);
    VerdictIs(series, Mean(Values(series)), Scale(sd), k);
  }

  /** A series with a report has a deviation. */
  lemma ReportsSpread(series: seq<Snapshot>, sd: real, k: nat)
    requires series != [] && sd >= 0.0 && Square(sd) == Variance(Values(series))
    requires k < |Detect(series, Mean(Values(series)), Scale(sd))|
    ensures sd > 0.0
  {
    var values := Values(series);
    var at := ReportsAreFlagged(series, Mean(values), Scale(sd));
    assert at[k] in at;
    FlaggedIff(values, at[k], sd);
    if sd == 0.0 { ZeroSquare(); }
  }

  lemma ZeroSquare()
    ensures Square(0.0) == 0.0
  {
  }

  lemma MeanTimes(values: seq<real>)
    requires values != []
    ensures |values| as real * Mean(values) == Sum(values)
  {
  }

  lemma {:induction false} VerdictIs(series: seq<Snapshot>, mean: real, scale: real, k: nat)
    requires scale > 0.0 && k < |Detect(series, mean, scale)|
    ensures var a := Detect(series, mean, scale)[k];
            a.mean == mean && a.stdev == scale && (a.direction == Spike <==> a.observed > mean)
  {
    var v := Metric(series[0]) as real;
    if Abs(ZScore(v, mean, scale)) >= 2.0 {
      if k == 0 { QuotientSign(v - mean, scale); } else { VerdictIs(series[1..], mean, scale, k - 1); }
    } else {
      VerdictIs(series[1..], mean, scale, k);
    }
  }

  lemma QuotientSign(d: real, scale: real)
    requires scale > 0.0
    ensures d / scale > 0.0 <==> d > 0.0
  {
    assert d == Times(d / scale, scale);
    if d / scale > 0.0 { PositiveProduct(d / scale, scale); }
    if d / scale < 0.0 {
      PositiveProduct(-(d / scale), scale);
      assert Times(-(d / scale), scale) == -d;
    }
  }

  /** Four variances for each of k flagged observations. */
  function Cost(k: nat, variance: real): real { k as real * (4.0 * variance) }

  lemma CostStep(k: nat, variance: real)
    ensures Cost(k + 1, variance) == Cost(k, variance) + 4.0 * variance
  {
  }

  lemma SquaresFrom(ds: seq<real>, k: nat)
    requires k < |ds|
    ensures SumSquares(ds[k..]) == Square(ds[k]) + SumSquares(ds[k + 1..]) && Square(ds[k]) >= 0.0
  {
    assert ds[k..][1..] == ds[k + 1..];
    SquaresNonNegative([ds[k]]);
    assert SumSquares([ds[k]]) == Square(ds[k]) + SumSquares([]);
  }

  /** Each flagged observation uses up at least 4 variances of the sum of squares. */
  lemma {:induction false} FlaggedCost(series: seq<Snapshot>, all: seq<real>, k: nat, sd: real)
    requires all != [] && k + |series| == |all| && all[k..] == Values(series)
    requires sd >= 0.0 && Square(sd) == Variance(all)
    ensures Cost(|Detect(series, Mean(all), Scale(sd))|, Variance(all)) <= SumSquares(Deviations(all, Mean(all))[k..])
    ensures Variance(all) <= 0.0 ==> Detect(series, Mean(all), Scale(sd)) == []
  {
    var ds := Deviations(all, Mean(all));
    DeviationsCancel(all);
    SquaresNonNegative(ds[k..]);
    if series != [] {
      assert all[k] == all[k..][0];
      assert all[k + 1..] == all[k..][1..] == Values(series[1..]);
      FlaggedCost(series[1..], all, k + 1, sd);
      FlaggedIff(all, k, sd);
      CostStep(|Detect(series[1..], Mean(all), Scale(sd))|, Variance(all));
      SquaresFrom(ds, k);
    }
  }

  lemma QuarterFlagged(series: seq<Snapshot>, sd: real)
    requires series != [] && sd >= 0.0 && Square(sd) == Variance(Values(series))
    ensures 4 * |Detect(series, Mean(Values(series)), Scale(sd))| <= |series|
  {
    var all := Values(series);
    var ds := Deviations(all, Mean(all));
    assert all[0..] == all && ds[0..] == ds;
    FlaggedCost(series, all, 0, sd);
    if Variance(all) > 0.0 {
      VarianceSum(all);
      Quarter(|Detect(series, Mean(all), Scale(sd))|, |all|, Variance(all));
    }
  }

  lemma VarianceSum(all: seq<real>)
    requires all != []
    ensures SumSquares(Deviations(all, Mean(all))) == |all| as real * Variance(all)
  {
  }

  /** At most a quarter of the observations are ever flagged; one to four observations never are,
      so the early return changes nothing for them. */
  lemma FewFlagged(series: seq<Snapshot>, pstdev: seq<real> -> real)
    requires series != [] && IsDeviation(pstdev)
    ensures 4 * |DetectAll(series, pstdev)| <= |series|
    ensures |series| < 5 ==> DetectAll(series, pstdev) == []
  {
    var all := Values(series);
    QuarterFlagged(series, pstdev(all));
    if |series| < 5 {
      assert all[0..] == all;
      NoneFlagged(series, all, 0, pstdev(all));
    }
  }

  lemma Quarter(k: nat, n: nat, variance: real)
    requires variance > 0.0 && Cost(k, variance) <= n as real * variance
    ensures 4 * k <= n
  {
    assert Times((4 * k - n) as real, variance) == Cost(k, variance) - n as real * variance;
    if 4 * k > n {
      PositiveProduct((4 * k - n) as real, variance);
    }
  }

  lemma {:induction false} NoneFlagged(series: seq<Snapshot>, all: seq<real>, k: nat, sd: real)
    requires 0 < |all| < 5 && k + |series| == |all| && all[k..] == Values(series)
    requires sd >= 0.0 && Square(sd) == Variance(all)
    ensures Detect(series, Mean(all), Scale(sd)) == []
  {
    if series != [] {
      assert all[k] == all[k..][0];
      assert all[k + 1..] == all[k..][1..] == Values(series[1..]);
      NoneFlagged(series[1..], all, k + 1, sd);
      FlaggedIff(all, k, sd);
      Samuelson(all, k);
      if Variance(all) > 0.0 { PositiveProduct((5 - |all|) as real, Variance(all)); }
      assert Times((5 - |all|) as real, Variance(all)) + Times((|all| - 1) as real, Variance(all))
               == 4.0 * Variance(all);
    }
  }

  // ---------------------------------------------------------------- five observations can flag

  function Quiet(n: nat): (series: seq<Snapshot>)
    ensures |series| == n && forall k :: 0 <= k < n ==> series[k] == Snapshot(k, Number(0))
  {
    seq(n, k => Snapshot(k, Number(0)))
  }

  /** n - 1 quiet days and one e-mail on the last. */
  function OneSpike(n: nat): seq<Snapshot>
    requires n > 0
  {
    Quiet(n - 1) + [Snapshot(n, Number(1))]
  }

  lemma {:induction false} SumConstant(xs: seq<real>, c: real)
    requires forall k :: 0 <= k < |xs| ==> xs[k] == c
    ensures Sum(xs) == |xs| as real * c && SumSquares(xs) == |xs| as real * Square(c)
  {
    if xs != [] { SumConstant(xs[1..], c); }
  }

  lemma SpikeMean(n: nat)
    requires n > 0
    ensures Mean(Values(OneSpike(n))) == 1.0 / n as real
  {
    var values := Values(OneSpike(n));
    assert values == values[..n - 1] + [1.0];
    SumAppend(values[..n - 1], [1.0]);
    SumConstant(values[..n - 1], 0.0);
    assert Sum([1.0]) == 1.0;
  }

  lemma SpikeSquares(n: nat, m: real)
    requires n > 0
    ensures SumSquares(Deviations(Values(OneSpike(n)), m)) == Times((n - 1) as real, Square(m)) + Square(1.0 - m)
  {
    var ds := Deviations(Values(OneSpike(n)), m);
    var quiet := ds[..n - 1];
    SumConstant(quiet, 0.0 - m);
    assert Times(0.0 - m, 0.0 - m) == Times(m, m);
    assert SumSquares(quiet) == Times((n - 1) as real, Square(m));
    LastSquare(ds, 1.0 - m);
  }

  lemma LastSquare(xs: seq<real>, last: real)
    requires xs != [] && xs[|xs| - 1] == last
    ensures SumSquares(xs) == SumSquares(xs[..|xs| - 1]) + Square(last)
  {
    assert xs == xs[..|xs| - 1] + [last];
    SumAppend(xs[..|xs| - 1], [last]);
    assert SumSquares([last]) == Square(last);
  }

  /** With five or more observations a single spike is flagged: five is exactly where detection starts to matter. */
  lemma SpikeIsFlagged(n: nat, pstdev: seq<real> -> real)
    requires n > 0 && IsDeviation(pstdev)
    ensures DetectAll(OneSpike(n), pstdev) != [] <==> n >= 5
  {
    var series := OneSpike(n);
    var values := Values(series);
    var m, variance, r := Mean(values), Variance(values), n as real;
    FewFlagged(series, pstdev);
    if n >= 5 {
      SpikeMean(n);
      SpikeSquares(n, m);
      DeviationsCancel(values);
      SpikeAlgebra(r, m, variance);
      FlaggedIff(values, n - 1, pstdev(values));
      DetectFinds(series, n - 1, m, Scale(pstdev(values)));
    }
  }

  lemma SpikeAlgebra(n: real, m: real, variance: real)
    requires n >= 5.0 && m == 1.0 / n
    requires n * variance == (n - 1.0) * Square(m) + Square(1.0 - m)
    ensures variance > 0.0 && Square(1.0 - m) >= 4.0 * variance
  {
    assert m > 0.0 && n * m == 1.0;
    assert n * variance == n * Square(m) - 2.0 * m + 1.0;
    assert n * Square(m) == m by { assert n * (m * m) == (n * m) * m; }
    assert n * variance == 1.0 - m;
    assert 1.0 - m >= 4.0 * m by { assert n * m >= 5.0 * m; }
    PositiveProduct(1.0 - m, 1.0);
    assert variance == m * (1.0 - m) by {
      assert n * (variance - m * (1.0 - m)) == (1.0 - m) - (n * m) * (1.0 - m);
    }
    PositiveProduct(m, 1.0 - m);
    assert (1.0 - m) * ((1.0 - m) - 4.0 * m) >= 0.0;
  }

  lemma {:induction false} DetectFinds(series: seq<Snapshot>, k: nat, mean: real, scale: real)
    requires k < |series| && scale != 0.0 && Abs(ZScore(Metric(series[k]) as real, mean, scale)) >= 2.0
    ensures Detect(series, mean, scale) != []
  {
    if k > 0 { DetectFinds(series[1..], k - 1, mean, scale); }
  }
}