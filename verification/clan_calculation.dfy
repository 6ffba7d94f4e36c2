/** The clan statistics: per-metric means and sums over one roster
    (`calculate_data`), means and sums of the row-by-row change
    between two rosters (`calculate_delta`), and the refresh that stores a
    clan's current figures and its weekly and daily movement
    (`update_calculations`). Every metric is tied to the roster column it
    reads by a table, exactly as the source names them: the columns are not
    uniform between the two calculations. */
module ClanCalculation {
  import opened Results
  import opened Aggregation

  /** The fields of a `ClanDelta` record */
  datatype Metric =
    | AvgDonations
    | AvgDonationsReceived
    | AvgGoldGrab
    | AvgElixirGrab
    | AvgDeGrab
    | AvgWarStars
    | AvgAttackWins
    | AvgVersusWins
    | TotalTrophies
    | TotalBhTrophies
    | TotalGoldGrab
    | TotalElixirGrab
    | TotalDeGrab
    | TotalDonations
    | TotalAttackWins
    | TotalVersusWins

  const AllMetrics: set<Metric> := {
    AvgDonations, AvgDonationsReceived, AvgGoldGrab, AvgElixirGrab, AvgDeGrab,
    AvgWarStars, AvgAttackWins, AvgVersusWins, TotalTrophies, TotalBhTrophies,
    TotalGoldGrab, TotalElixirGrab, TotalDeGrab, TotalDonations, TotalAttackWins,
    TotalVersusWins
  }

  /** The metrics `calculate_data` fills in: all but the two trophy totals */
  const DataMetrics: set<Metric> := {
    AvgDonations, AvgDonationsReceived, AvgGoldGrab, AvgElixirGrab, AvgDeGrab,
    AvgWarStars, AvgAttackWins, AvgVersusWins,
    TotalGoldGrab, TotalElixirGrab, TotalDeGrab, TotalDonations, TotalAttackWins,
    TotalVersusWins
  }

  /** A `ClanDelta` record: the metrics a calculation assigned. A metric
      that is absent keeps the record's default value. */
  datatype ClanDelta = ClanDelta(fields: map<Metric, real>)

  /** `ClanDelta()`: nothing assigned */
  const Default: ClanDelta := ClanDelta(map[])

  /** Whether a metric is reduced with a mean (the others are sums) */
  predicate IsAverage(m: Metric) {
    || m.AvgDonations? || m.AvgDonationsReceived? || m.AvgGoldGrab? || m.AvgElixirGrab?
    || m.AvgDeGrab? || m.AvgWarStars? || m.AvgAttackWins? || m.AvgVersusWins?
  }

  /** The roster column `calculate_data` reads for each metric it fills */
  function DataSource(m: Metric): (c: Option<string>)
    ensures c.Some? <==> m in DataMetrics
  {
    match m
    case AvgDonations => Some("Donations")
    case AvgDonationsReceived => Some("Donations Received")
    case AvgGoldGrab => Some("Total Gold Grab")
    case AvgElixirGrab => Some("Total Elixir Grab")
    case AvgDeGrab => Some("Total DE Grab")
    case AvgWarStars => Some("Total War Stars")
    case AvgAttackWins => Some("Attack Wins")
    case AvgVersusWins => Some("Builder Hall Trophies")
    case TotalTrophies => None
    case TotalBhTrophies => None
    case TotalDonations => Some("Donations")
    case TotalGoldGrab => Some("Total Gold Grab")
    case TotalElixirGrab => Some("Total Elixir Grab")
    case TotalDeGrab => Some("Total DE Grab")
    case TotalAttackWins => Some("Attack Wins")
    case TotalVersusWins => Some("Versus Battle Wins")
  }

  /** The roster column `calculate_delta` reads for each metric. It agrees
      with `calculate_data` except for the donations pair, which reads the
      running total, and the versus-wins average, which reads the wins
      rather than the builder-hall trophies. */
  function DeltaSource(m: Metric): (c: string)
    ensures m in DataMetrics && !(m.AvgDonations? || m.TotalDonations? || m.AvgVersusWins?) ==>
      DataSource(m) == Some(c)
    ensures m.AvgDonations? || m.TotalDonations? || m.AvgVersusWins? ==> DataSource(m) != Some(c)
  {
    match m
    case AvgDonations => "Total Donations"
    case AvgDonationsReceived => "Donations Received"
    case AvgGoldGrab => "Total Gold Grab"
    case AvgElixirGrab => "Total Elixir Grab"
    case AvgDeGrab => "Total DE Grab"
    case AvgWarStars => "Total War Stars"
    case AvgAttackWins => "Attack Wins"
    case AvgVersusWins => "Versus Battle Wins"
    case TotalTrophies => "Current Trophies"
    case TotalBhTrophies => "Builder Hall Trophies"
    case TotalGoldGrab => "Total Gold Grab"
    case TotalElixirGrab => "Total Elixir Grab"
    case TotalDeGrab => "Total DE Grab"
    case TotalDonations => "Total Donations"
    case TotalAttackWins => "Attack Wins"
    case TotalVersusWins => "Versus Battle Wins"
  }

  /** The mean metric that belongs with a sum metric */
  function AverageOf(m: Metric): Option<Metric> {
    match m
    case TotalDonations => Some(AvgDonations)
    case TotalGoldGrab => Some(AvgGoldGrab)
    case TotalElixirGrab => Some(AvgElixirGrab)
    case TotalDeGrab => Some(AvgDeGrab)
    case TotalAttackWins => Some(AvgAttackWins)
    case TotalVersusWins => Some(AvgVersusWins)
    case _ => None
  }

  /** Every column `calculate_data` reads is in the roster (pandas raises
      `KeyError` otherwise). */
  predicate HasDataColumns(df: Frame) {
    forall m :: DataSource(m).Some? ==> DataSource(m).value in df
  }

  /** Every column `calculate_delta` reads is in the roster. */
  predicate HasDeltaColumns(df: Frame) {
    forall m :: DeltaSource(m) in df
  }

  /** `DataFrame.empty`: the roster has no rows (or no columns at all) */
  predicate IsEmpty(df: Frame) {
    forall c :: c in df ==> |df[c]| == 0
  }

  /** One metric of `calculate_data`: the mean or the sum of the present
      cells of its column, and 0 when the column has none */
  ghost function DataValue(df: Frame, m: Metric): (v: real)
    requires HasDataColumns(df) && DataSource(m).Some?
    ensures Count(df[DataSource(m).value]) == 0 ==> v == 0.0
    ensures !IsAverage(m) ==> v == SeriesSum(df[DataSource(m).value])
    ensures IsAverage(m) && Count(df[DataSource(m).value]) > 0 ==>
      v * Count(df[DataSource(m).value]) as real == SeriesSum(df[DataSource(m).value])
  {
    var column := DataSource(m).value;
    if IsAverage(m) then MeanSingleColumn(column, df) else SumSingleColumn(column, df)
  }

  /** `calculate_data`: the fourteen metrics it fills, each as `DataValue` */
  ghost function CalculateData(df: Frame): (r: ClanDelta)
    requires HasDataColumns(df)
    ensures r.fields.Keys == DataMetrics
    ensures forall m :: m in r.fields ==> r.fields[m] == DataValue(df, m)
  {
    ClanDelta(map m | m in DataMetrics :: DataValue(df, m))
  }

  /** One metric of `calculate_delta`: the mean or the sum of the
      row-by-row change in its column, over the row labels present in
      both rosters, and 0 when there is no such row */
  ghost function DeltaValue(now: Frame, start: Frame, m: Metric): (v: real)
    requires HasDeltaColumns(now) && HasDeltaColumns(start)
    ensures Present(now[DeltaSource(m)]).Keys !! Present(start[DeltaSource(m)]).Keys ==> v == 0.0
  {
    var column := DeltaSource(m);
    if IsAverage(m) then AvgColumn(column, now, start) else SumColumn(column, now, start)
  }

  /** `calculate_delta`: all sixteen metrics, each as `DeltaValue` */
  ghost function CalculateDelta(now: Frame, start: Frame): (r: ClanDelta)
    requires HasDeltaColumns(now) && HasDeltaColumns(start)
    ensures r.fields.Keys == AllMetrics
    ensures forall m :: m in r.fields ==> r.fields[m] == DeltaValue(now, start, m)
  {
    ClanDelta(map m | m in AllMetrics :: DeltaValue(now, start, m))
  }

  /** Within one `calculate_data` result, a total is the number of rows
      with a value times the matching average, for every pair that reads
      the same column. */
  lemma DataTotalIsCountTimesAverage(df: Frame, m: Metric)
    requires HasDataColumns(df)
    requires AverageOf(m).Some? && DataSource(m) == DataSource(AverageOf(m).value)
    ensures DataValue(df, m) == Count(df[DataSource(m).value]) as real * DataValue(df, AverageOf(m).value)
  {
    var a := AverageOf(m).value;
    assert !IsAverage(m) && IsAverage(a);
    var n := Count(df[DataSource(m).value]) as real;
    var total := DataValue(df, m);
    var mean := DataValue(df, a);
    assert total == SeriesSum(df[DataSource(m).value]);
    if n > 0.0 {
      assert mean * n == total;
    }
    assert total == n * mean;
  }

  /** A roster compared with itself has not moved in any one metric. */
  lemma DeltaValueOfSelfIsZero(df: Frame, m: Metric)
    requires HasDeltaColumns(df)
    ensures DeltaValue(df, df, m) == 0.0
  {
    DifferenceOfSelfIsZero(DeltaSource(m), df);
  }

  /** A roster compared with itself has not moved: every metric is 0. */
  lemma DeltaOfSelfIsZero(df: Frame)
    requires HasDeltaColumns(df)
    ensures CalculateDelta(df, df).fields.Keys == AllMetrics
    ensures forall m :: m in AllMetrics ==> CalculateDelta(df, df).fields[m] == 0.0
  {
    forall m | m in AllMetrics
      ensures CalculateDelta(df, df).fields[m] == 0.0
    {
      DeltaValueOfSelfIsZero(df, m);
    }
  }

  /** Swapping the two rosters negates any one metric of the delta. */
  lemma DeltaValueAntisymmetric(a: Frame, b: Frame, m: Metric)
    requires HasDeltaColumns(a) && HasDeltaColumns(b)
    ensures DeltaValue(a, b, m) == -DeltaValue(b, a, m)
  {
    AvgColumnAntisymmetric(DeltaSource(m), a, b);
    SumColumnAntisymmetric(DeltaSource(m), a, b);
  }

  /** Swapping the two rosters negates every metric of the delta. */
  lemma DeltaAntisymmetric(a: Frame, b: Frame)
    requires HasDeltaColumns(a) && HasDeltaColumns(b)
    ensures forall m :: m in AllMetrics ==>
      CalculateDelta(a, b).fields[m] == -CalculateDelta(b, a).fields[m]
  {
    forall m | m in AllMetrics
      ensures CalculateDelta(a, b).fields[m] == -CalculateDelta(b, a).fields[m]
    {
      DeltaValueAntisymmetric(a, b, m);
    }
  }

  /** When every row with a value in one roster has one in the other, a
      summed metric of the delta is the difference of the two rosters' sums. */
  lemma DeltaTotalOfSameRows(now: Frame, start: Frame, m: Metric)
    requires HasDeltaColumns(now) && HasDeltaColumns(start)
    requires !IsAverage(m)
    requires Present(now[DeltaSource(m)]).Keys == Present(start[DeltaSource(m)]).Keys
    ensures DeltaValue(now, start, m) == SeriesSum(now[DeltaSource(m)]) - SeriesSum(start[DeltaSource(m)])
  {
    SumColumnOfSameRows(DeltaSource(m), now, start);
  }

  /** Every sum metric of `calculate_delta` has a mean partner reading the
      same column, and the sum is the number of rows present in both
      rosters times that mean. */
  lemma DeltaTotalIsCountTimesAverage(now: Frame, start: Frame, m: Metric)
    requires HasDeltaColumns(now) && HasDeltaColumns(start)
    requires AverageOf(m).Some?
    ensures !IsAverage(m) && IsAverage(AverageOf(m).value)
    ensures DeltaSource(m) == DeltaSource(AverageOf(m).value)
    ensures DeltaValue(now, start, m)
         == Count(Difference(now[DeltaSource(m)], start[DeltaSource(m)])) as real
            * DeltaValue(now, start, AverageOf(m).value)
  {
    var c := DeltaSource(m);
    var d := Difference(now[c], start[c]);
    var n := Count(d) as real;
    var total := DeltaValue(now, start, m);
    var mean := DeltaValue(now, start, AverageOf(m).value);
    assert total == SeriesSum(d);
    if n > 0.0 {
      assert mean == SeriesSum(d) / n;
      assert mean * n == total;
    } else {
      assert mean == 0.0;
      assert Present(d) == map[];
    }
    assert total == n * mean;
  }

  /** What a clan stores after a refresh */
  datatype Calculations = Calculations(computed: ClanDelta, weekDelta: ClanDelta, dayDelta: ClanDelta)

  /** `update_calculations`, given the rosters of the snapshots nearest to
      now, to a week ago and to a day ago (their lookup is a query against
      the snapshot store and is not part of this function). An empty
      current roster leaves all three records at their defaults. */
  ghost function UpdateCalculations(mostRecent: Frame, lastWeek: Frame, yesterday: Frame): (r: Calculations)
    requires !IsEmpty(mostRecent) ==>
      HasDataColumns(mostRecent) && HasDeltaColumns(mostRecent)
      && HasDeltaColumns(lastWeek) && HasDeltaColumns(yesterday)
    ensures IsEmpty(mostRecent) <==> r.computed == Default
    ensures IsEmpty(mostRecent) ==> r.weekDelta == Default && r.dayDelta == Default
    ensures !IsEmpty(mostRecent) ==>
      && r.computed.fields.Keys == DataMetrics
      && (forall m :: m in DataMetrics ==> r.computed.fields[m] == DataValue(mostRecent, m))
    ensures !IsEmpty(mostRecent) ==>
      && r.weekDelta.fields.Keys == AllMetrics && r.dayDelta.fields.Keys == AllMetrics
      && (forall m :: m in AllMetrics ==>
            && r.weekDelta.fields[m] == DeltaValue(mostRecent, lastWeek, m)
            && r.dayDelta.fields[m] == DeltaValue(mostRecent, yesterday, m))
  {
    if IsEmpty(mostRecent) then
      Calculations(Default, Default, Default)
    else
      assert AvgDonations in DataMetrics;
      Calculations(CalculateData(mostRecent),
                   CalculateDelta(mostRecent, lastWeek),
                   CalculateDelta(mostRecent, yesterday))
  }

  /** A non-empty roster that has not changed over the week shows no weekly
      movement, while its current figures are those of `calculate_data`. */
  lemma UnchangedWeekIsZero(mostRecent: Frame, yesterday: Frame)
    requires !IsEmpty(mostRecent)
    requires HasDataColumns(mostRecent) && HasDeltaColumns(mostRecent) && HasDeltaColumns(yesterday)
    ensures UpdateCalculations(mostRecent, mostRecent, yesterday).computed == CalculateData(mostRecent)
    ensures forall m :: m in AllMetrics ==>
      UpdateCalculations(mostRecent, mostRecent, yesterday).weekDelta.fields[m] == 0.0
  {
    DeltaOfSelfIsZero(mostRecent);
  }

  /** A roster of two members, "A" and "B", with their donations (the
      season's and the running total alike) */
  function TwoMembers(x: real, y: real): (df: Frame)
    ensures "Donations" in df && "Total Donations" in df
  {
    var c: Column := map["A" := Some(x), "B" := Some(y)];
    map["Donations" := c, "Total Donations" := c]
  }

  /** Two members' average donation is half their sum. */
  lemma TwoMembersMean(x: real, y: real)
    ensures MeanSingleColumn("Donations", TwoMembers(x, y)) == (x + y) / 2.0
  {
    var c := TwoMembers(x, y)["Donations"];
    assert Present(c) == map["A" := x, "B" := y];
    TwoRowMean(c, x, y);
    assert MeanSingleColumn("Donations", TwoMembers(x, y)) == ZeroIfNaN(SeriesMean(c));
  }

  /** Subtracting two two-member columns keeps both members. */
  lemma TwoMembersDifference(x0: real, y0: real, x1: real, y1: real)
    ensures Present(Difference(TwoMembers(x1, y1)["Total Donations"], TwoMembers(x0, y0)["Total Donations"]))
         == map["A" := x1 - x0, "B" := y1 - y0]
  {
    var now: Column := map["A" := Some(x1), "B" := Some(y1)];
    var start: Column := map["A" := Some(x0), "B" := Some(y0)];
    assert TwoMembers(x1, y1)["Total Donations"] == now;
    assert TwoMembers(x0, y0)["Total Donations"] == start;
    var d := Difference(now, start);
    assert d.Keys == {"A", "B"};
    assert d == map["A" := Some(x1 - x0), "B" := Some(y1 - y0)];
  }

  /** A column whose present cells are two members' values has their mean
      as its mean. */
  lemma TwoRowMean(c: Column, x: real, y: real)
    requires Present(c) == map["A" := x, "B" := y]
    ensures SeriesMean(c) == Some((x + y) / 2.0)
  {
    TotalOfTwo("A", x, "B", y);
    assert "B" !in map["A" := x];
    assert Count(c) == 2;
  }

  /** Two members' averaged change is half the sum of their changes. */
  lemma TwoMembersDelta(x0: real, y0: real, x1: real, y1: real)
    ensures AvgColumn("Total Donations", TwoMembers(x1, y1), TwoMembers(x0, y0)) == ((x1 - x0) + (y1 - y0)) / 2.0
  {
    var d := Difference(TwoMembers(x1, y1)["Total Donations"], TwoMembers(x0, y0)["Total Donations"]);
    TwoMembersDifference(x0, y0, x1, y1);
    TwoRowMean(d, x1 - x0, y1 - y0);
  }

  /** Two members give 10 and 20 on the first day and 15 and 25 a day later:
      the averages are 15 and 20 and the averaged daily change is +5. */
  lemma DonationScenario()
    ensures MeanSingleColumn("Donations", TwoMembers(10.0, 20.0)) == 15.0
    ensures MeanSingleColumn("Donations", TwoMembers(15.0, 25.0)) == 20.0
    ensures AvgColumn("Total Donations", TwoMembers(15.0, 25.0), TwoMembers(10.0, 20.0)) == 5.0
  {
    TwoMembersMean(10.0, 20.0);
    TwoMembersMean(15.0, 25.0);
    TwoMembersDelta(10.0, 20.0, 15.0, 25.0);
  }
}
