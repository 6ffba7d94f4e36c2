/** The pandas reductions the clan statistics rest on, in exact arithmetic:
    a column is a Series of optional cells keyed by row label, `sum` and
    `mean` skip missing cells, and subtracting two columns aligns rows by
    label. The sum over an unordered set of rows is defined by choosing rows
    one at a time; `TotalRemove` shows the choice does not matter. */
module Aggregation {
  import opened Results

  /** A row label of a roster frame, unique within the frame */
  type RowKey = string

  /** A Series: one cell per row label, `None` where the value is NaN */
  type Column = map<RowKey, Option<real>>

  /** A roster DataFrame: column name to column */
  type Frame = map<string, Column>

  /** The present (non-NaN) cells of a column */
  function Present(c: Column): (p: map<RowKey, real>)
    ensures p.Keys <= c.Keys
  {
    map k | k in c && c[k].Some? :: c[k].value
  }

  /** `Series.count()`: how many cells are present */
  function Count(c: Column): nat {
    |Present(c)|
  }

  // ---------------------------------------------------------------------------
  // Sums over a finite set of rows
  // ---------------------------------------------------------------------------

  ghost function PickKey(m: map<RowKey, real>): (k: RowKey)
    requires |m| > 0
    ensures k in m
  {
    var k :| k in m; k
  }

  /** The sum of the values of a map, one row at a time */
  ghost function Total(m: map<RowKey, real>): real
    decreases |m|
  {
    if |m| == 0 then 0.0
    else
      var k := PickKey(m);
      assert |m - {k}| == |m| - 1 by {
        assert (m - {k}).Keys == m.Keys - {k};
      }
      m[k] + Total(m - {k})
  }

  /** Any row can be taken out first: the sum does not depend on the order
      in which rows are visited. */
  lemma {:induction false} TotalRemove(m: map<RowKey, real>, k: RowKey)
    requires k in m
    ensures Total(m) == m[k] + Total(m - {k})
    decreases |m|
  {
    var j := PickKey(m);
    assert (m - {j}).Keys == m.Keys - {j};
    if j != k {
      assert (m - {k}).Keys == m.Keys - {k};
      TotalRemove(m - {j}, k);
      TotalRemove(m - {k}, j);
      assert m - {j} - {k} == m - {k} - {j};
    }
  }

  /** Two rows sum to their two values. */
  lemma TotalOfTwo(a: RowKey, x: real, b: RowKey, y: real)
    requires a != b
    ensures Total(map[a := x, b := y]) == x + y
  {
    var m := map[a := x, b := y];
    TotalRemove(m, a);
    assert m - {a} == map[b := y];
    TotalRemove(map[b := y], b);
    assert map[b := y] - {b} == map[];
  }

  /** Negating every value negates the sum. */
  lemma {:induction false} TotalNegate(m: map<RowKey, real>, n: map<RowKey, real>)
    requires n.Keys == m.Keys
    requires forall k :: k in m ==> n[k] == -m[k]
    ensures Total(n) == -Total(m)
    decreases |m|
  {
    if |m| > 0 {
      var k := PickKey(m);
      assert (m - {k}).Keys == m.Keys - {k};
      TotalRemove(m, k);
      TotalRemove(n, k);
      TotalNegate(m - {k}, n - {k});
    }
  }

  /** Subtracting row by row subtracts the sums. */
  lemma {:induction false} TotalDifference(x: map<RowKey, real>, y: map<RowKey, real>, d: map<RowKey, real>)
    requires x.Keys == y.Keys && d.Keys == x.Keys
    requires forall k :: k in d ==> d[k] == x[k] - y[k]
    ensures Total(d) == Total(x) - Total(y)
    decreases |x|
  {
    if |x| > 0 {
      var k := PickKey(x);
      assert (x - {k}).Keys == x.Keys - {k};
      TotalRemove(x, k);
      TotalRemove(y, k);
      TotalRemove(d, k);
      TotalDifference(x - {k}, y - {k}, d - {k});
    }
  }

  /** `x` added to itself `n` times */
  function Scaled(n: nat, x: real): real {
    if n == 0 then 0.0 else Scaled(n - 1, x) + x
  }

  /** Repeated addition is multiplication. */
  lemma {:induction false} ScaledIsProduct(n: nat, x: real)
    ensures Scaled(n, x) == n as real * x
  {
    if n > 0 {
      ScaledIsProduct(n - 1, x);
      assert n as real * x == (n - 1) as real * x + x;
    }
  }

  /** Rows that are all at least `lo` sum to at least count * lo. */
  lemma {:induction false} TotalAtLeast(m: map<RowKey, real>, lo: real)
    requires forall k :: k in m ==> lo <= m[k]
    ensures Scaled(|m|, lo) <= Total(m)
    decreases |m|
  {
    if |m| > 0 {
      var k := PickKey(m);
      var rest := m - {k};
      assert rest.Keys == m.Keys - {k};
      TotalRemove(m, k);
      TotalAtLeast(rest, lo);
    }
  }

  /** Rows that are all at most `hi` sum to at most count * hi. */
  lemma {:induction false} TotalAtMost(m: map<RowKey, real>, hi: real)
    requires forall k :: k in m ==> m[k] <= hi
    ensures Total(m) <= Scaled(|m|, hi)
    decreases |m|
  {
    if |m| > 0 {
      var k := PickKey(m);
      var rest := m - {k};
      assert rest.Keys == m.Keys - {k};
      TotalRemove(m, k);
      TotalAtMost(rest, hi);
    }
  }

  // ---------------------------------------------------------------------------
  // Series reductions and the NaN-to-zero guard
  // ---------------------------------------------------------------------------

  /** `Series.sum()`: missing cells are skipped and the empty sum is 0, so
      with exact arithmetic it is never NaN */
  ghost function SeriesSum(c: Column): real {
    Total(Present(c))
  }

  /** `Series.mean()`: NaN (`None`) when no cell is present */
  ghost function SeriesMean(c: Column): (r: Option<real>)
    ensures r.None? <==> Count(c) == 0
    ensures r.Some? ==> r.value * Count(c) as real == SeriesSum(c)
  {
    if Count(c) == 0 then None else Some(SeriesSum(c) / Count(c) as real)
  }

  /** `0 if np.isnan(value) else value` */
  function ZeroIfNaN(v: Option<real>): real {
    v.GetOr(0.0)
  }

  /** `sum_single_column`: the sum of the column's present values, 0 when
      none is present */
  ghost function SumSingleColumn(column: string, df: Frame): (r: real)
    requires column in df
    ensures Count(df[column]) == 0 ==> r == 0.0
  {
    SeriesSum(df[column])
  }

  /** `mean_single_column`: the arithmetic mean of the column's present
      values, 0 when none is present */
  ghost function MeanSingleColumn(column: string, df: Frame): (r: real)
    requires column in df
    ensures Count(df[column]) == 0 ==> r == 0.0
    ensures Count(df[column]) > 0 ==> r * Count(df[column]) as real == SumSingleColumn(column, df)
  {
    ZeroIfNaN(SeriesMean(df[column]))
  }

  /** The mean lies between the smallest and the largest present value. */
  lemma MeanWithinBounds(column: string, df: Frame, lo: real, hi: real)
    requires column in df
    requires Count(df[column]) > 0
    requires forall k :: k in Present(df[column]) ==> lo <= Present(df[column])[k] <= hi
    ensures lo <= MeanSingleColumn(column, df) <= hi
  {
    var count := Count(df[column]);
    var sum := SumSingleColumn(column, df);
    var mean := MeanSingleColumn(column, df);
    TotalAtLeast(Present(df[column]), lo);
    TotalAtMost(Present(df[column]), hi);
    ScaledIsProduct(count, lo);
    ScaledIsProduct(count, hi);
    assert count as real * lo <= sum <= count as real * hi;
    assert mean * count as real == sum;
    QuotientBounds(count as real, sum, mean, lo, hi);
  }

  /** A quotient of a sum lying between n * lo and n * hi lies between lo and hi. */
  lemma QuotientBounds(n: real, sum: real, mean: real, lo: real, hi: real)
    requires n > 0.0 && mean * n == sum
    requires n * lo <= sum <= n * hi
    ensures lo <= mean <= hi
  {
  }

  // ---------------------------------------------------------------------------
  // Differences of two rosters
  // ---------------------------------------------------------------------------

  /** `now - start` on two Series: rows are aligned by label over the union
      of both indexes; a row on one side only, or with a missing value on
      either side, is NaN. */
  function Difference(now: Column, start: Column): (d: Column)
    ensures d.Keys == now.Keys + start.Keys
  {
    map k | k in now.Keys + start.Keys ::
      if k in now && k in start && now[k].Some? && start[k].Some?
      then Some(now[k].value - start[k].value)
      else None
  }

  /** Only rows present on both sides survive the subtraction, each holding
      `now - start`. */
  lemma DifferencePresent(now: Column, start: Column)
    ensures Present(Difference(now, start)).Keys == Present(now).Keys * Present(start).Keys
    ensures forall k :: k in Present(Difference(now, start)) ==>
      Present(Difference(now, start))[k] == Present(now)[k] - Present(start)[k]
  {
  }

  /** `avg_column`: the mean of the row-aligned difference, 0 when no row is
      present on both sides */
  ghost function AvgColumn(column: string, now: Frame, start: Frame): (r: real)
    requires column in now && column in start
    ensures Present(now[column]).Keys !! Present(start[column]).Keys ==> r == 0.0
  {
    DifferencePresent(now[column], start[column]);
    ZeroIfNaN(SeriesMean(Difference(now[column], start[column])))
  }

  /** `sum_column`: the sum of the row-aligned difference, 0 when no row is
      present on both sides */
  ghost function SumColumn(column: string, now: Frame, start: Frame): (r: real)
    requires column in now && column in start
    ensures Present(now[column]).Keys !! Present(start[column]).Keys ==> r == 0.0
  {
    DifferencePresent(now[column], start[column]);
    ZeroIfNaN(Some(SeriesSum(Difference(now[column], start[column]))))
  }

  /** A roster compared with itself has moved by nothing. */
  lemma DifferenceOfSelfIsZero(column: string, df: Frame)
    requires column in df
    ensures AvgColumn(column, df, df) == 0.0
    ensures SumColumn(column, df, df) == 0.0
  {
    var p := Present(Difference(df[column], df[column]));
    DifferencePresent(df[column], df[column]);
    TotalNegate(p, p);
  }

  /** Present cells of the two opposite differences: same rows, opposite values */
  lemma OppositeDifferences(column: string, a: Frame, b: Frame)
    requires column in a && column in b
    ensures Present(Difference(b[column], a[column])).Keys == Present(Difference(a[column], b[column])).Keys
    ensures SeriesSum(Difference(a[column], b[column])) == -SeriesSum(Difference(b[column], a[column]))
  {
    var ab := Present(Difference(a[column], b[column]));
    var ba := Present(Difference(b[column], a[column]));
    DifferencePresent(a[column], b[column]);
    DifferencePresent(b[column], a[column]);
    TotalNegate(ba, ab);
  }

  /** Swapping the two rosters negates the averaged delta. */
  lemma AvgColumnAntisymmetric(column: string, a: Frame, b: Frame)
    requires column in a && column in b
    ensures AvgColumn(column, a, b) == -AvgColumn(column, b, a)
  {
    OppositeDifferences(column, a, b);
    var n := Count(Difference(a[column], b[column]));
    assert n == Count(Difference(b[column], a[column]));
    if n > 0 {
      var s := SeriesSum(Difference(b[column], a[column]));
      assert AvgColumn(column, a, b) == (-s) / n as real;
      assert AvgColumn(column, b, a) == s / n as real;
    }
  }

  /** Swapping the two rosters negates the summed delta. */
  lemma SumColumnAntisymmetric(column: string, a: Frame, b: Frame)
    requires column in a && column in b
    ensures SumColumn(column, a, b) == -SumColumn(column, b, a)
  {
    OppositeDifferences(column, a, b);
  }

  /** When the same rows are present in both rosters, the summed delta is
      the difference of the two rosters' sums. */
  lemma SumColumnOfSameRows(column: string, now: Frame, start: Frame)
    requires column in now && column in start
    requires Present(now[column]).Keys == Present(start[column]).Keys
    ensures SumColumn(column, now, start) == SumSingleColumn(column, now) - SumSingleColumn(column, start)
  {
    DifferencePresent(now[column], start[column]);
    TotalDifference(Present(now[column]), Present(start[column]), Present(Difference(now[column], start[column])));
  }
}
