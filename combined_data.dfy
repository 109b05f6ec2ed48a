/**
 * GET /combined-data: the statistics, bar-chart and pie-chart responses for
 * one month, fetched side by side and merged into one object.
 */
module CombinedData {
  import opened Wrappers
  import opened Errors
  import Months
  import opened Products
  import opened Stats
  import opened BarChart
  import opened PieChart

  datatype Combined = Combined(statistics: Statistics, barChart: seq<BarEntry>, pieChart: seq<PieEntry>)

  /**
   * The join of the three sub-responses: the object literal holding them
   * unchanged when all three succeeded; any failed one rejects the
   * `Promise.all`, and the handler answers with its own error.
   */
  function Merge(s: Result<Statistics, Error>, b: Result<seq<BarEntry>, Error>, p: Result<seq<PieEntry>, Error>)
    : (r: Result<Combined, Error>)
    ensures r.Ok? <==> s.Ok? && b.Ok? && p.Ok?
    ensures r.Ok? ==> r.value.statistics == s.value && r.value.barChart == b.value && r.value.pieChart == p.value
    ensures r.Err? ==> r.error == CombinedDataFailed
  {
    if s.Ok? && b.Ok? && p.Ok? then Ok(Combined(s.value, b.value, p.value)) else Err(CombinedDataFailed)
  }

  /**
   * The combined handler: the month gate, then the three handlers called with
   * the same `month`, then the merge. The sub-requests pass the same gate, so
   * the merge never fails and each field is its handler's answer unchanged.
   */
  function CombinedDataFor(rs: seq<Record>, month: Months.QueryParam): (r: Result<Combined, Error>)
    requires WellFormed(rs)
    ensures r.Ok? <==> Months.ValidateMonth(month).Ok?
    ensures r.Err? ==> r.error == InvalidMonth
    ensures r.Ok? ==>
      && StatisticsFor(rs, month) == Ok(r.value.statistics)
      && BarChartFor(rs, month) == Ok(r.value.barChart)
      && PieChartFor(rs, month) == Ok(r.value.pieChart)
  {
    match Months.ValidateMonth(month)
    case Err(e) => Err(e)
    case Ok(_) => Merge(StatisticsFor(rs, month), BarChartFor(rs, month), PieChartFor(rs, month))
  }

  /** Moving sales to other years changes no part of the combined report. */
  lemma CombinedIgnoresYear(rs: seq<Record>, rs': seq<Record>, month: Months.QueryParam)
    requires WellFormed(rs) && WellFormed(rs') && PairwiseSameButYear(rs, rs')
    ensures CombinedDataFor(rs, month) == CombinedDataFor(rs', month)
  {
    if Months.ValidateMonth(month).Ok? {
      var key := Months.MonthNumber(Months.ValidateMonth(month).value);
      StatisticsIgnoreYear(rs, rs', key);
      BarChartIgnoresYear(rs, rs', key);
      PieChartIgnoresYear(rs, rs', key);
    }
  }

  /** "March" is accepted and keyed "03". */
  lemma MarchKey()
    ensures Months.ValidateMonth(Months.Single("March")) == Ok("March")
    ensures Months.MonthNumber("March") == "03"
  {
    assert Months.ValidMonths[2] == "March";
    assert Months.IndexOf(Months.ValidMonths, "March") == 2;
    assert Months.Decimal(3) == "3";
  }

  /** Two March sales, one sold at 50 and one unsold at 150, in two categories. */
  function MarchSales(): seq<Record> {
    [Record(1, 50.0, "A", true, "2021-03-01"), Record(2, 150.0, "B", false, "2021-03-15")]
  }

  lemma MarchDate(d: string)
    requires d == "2021-03-01" || d == "2021-03-15"
    ensures IsoDate(d) && MonthOf(d) == "03"
  {
    assert d[5..7] == "03";
    assert Months.KeyValue("03") == 3 && Months.IsMonthKey("03");
    assert Year(d) == 2021 && DaysInMonth(2021, 3) == 31;
    assert 1 <= Day(d) <= 15;
    assert forall i :: 0 <= i < 10 && i != 4 && i != 7 ==> Months.IsDigit(d[i]);
  }

  lemma MarchDates()
    ensures IsoDate("2021-03-01") && MonthOf("2021-03-01") == "03"
    ensures IsoDate("2021-03-15") && MonthOf("2021-03-15") == "03"
  {
    MarchDate("2021-03-01");
    MarchDate("2021-03-15");
  }

  lemma MarchQueries()
    ensures WellFormed(MarchSales())
    ensures QueryByMonth(MarchSales(), "03", None) == MarchSales()
    ensures QueryByMonth(MarchSales(), "03", Some(true)) == MarchSales()[..1]
    ensures QueryByMonth(MarchSales(), "03", Some(false)) == MarchSales()[1..]
  {
    MarchDates();
    var rs := MarchSales();
    var last := rs[1..];
    assert last == [rs[1]] && last[1..] == [];
    assert WellFormed(rs) && WellFormed(last);
    assert QueryByMonth(last, "03", None) == last;
    assert QueryByMonth(last, "03", Some(true)) == [];
    assert QueryByMonth(last, "03", Some(false)) == last;
  }

  lemma MarchStatistics()
    ensures WellFormed(MarchSales()) && ComputeStatistics(MarchSales(), "03") == Statistics(200.0, 1, 1)
  {
    MarchQueries();
    var rs := MarchSales();
    assert rs[1..][1..] == [];
    assert TotalPrice(rs) == 200.0;
  }

  lemma MarchBarChart()
    ensures WellFormed(MarchSales())
    ensures BarChartData(MarchSales(), "03") == [BarEntry(Some("0 - 100"), 1), BarEntry(Some("101 - 200"), 1)]
  {
    MarchQueries();
    assert PriceRange(50.0) == Some("0 - 100") && PriceRange(150.0) == Some("101 - 200");
    var ranges := PriceRanges(MarchSales());
    assert ranges == [Some("0 - 100"), Some("101 - 200")];
    GroupBy.GroupCountOfTwo(Some("0 - 100"), Some("101 - 200"));
  }

  lemma MarchPieChart()
    ensures WellFormed(MarchSales())
    ensures PieChartData(MarchSales(), "03") == [PieEntry("A", 1), PieEntry("B", 1)]
  {
    MarchQueries();
    assert Categories(MarchSales()) == ["A", "B"];
    var rows := GroupBy.GroupCount(["A", "B"]);
    assert PieChartData(MarchSales(), "03") == ToPieEntries(rows);
    GroupBy.GroupCountOfTwo("A", "B");
  }

  /** The combined report for the two March sales, field by field. */
  lemma MarchExample()
    ensures WellFormed(MarchSales())
    ensures CombinedDataFor(MarchSales(), Months.Single("March")) == Ok(Combined(
      Statistics(200.0, 1, 1),
      [BarEntry(Some("0 - 100"), 1), BarEntry(Some("101 - 200"), 1)],
      [PieEntry("A", 1), PieEntry("B", 1)]))
  {
    MarchKey();
    MarchStatistics();
    MarchBarChart();
    MarchPieChart();
  }
}
