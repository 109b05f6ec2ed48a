/**
 * GET /bar-chart: the month's rows bucketed by a ten-way `CASE` on `price`
 * and counted per bucket with `GROUP BY priceRange`.
 */
module BarChart {
  import opened Wrappers
  import opened Errors
  import opened Sequences
  import Months
  import opened Products
  import opened GroupBy

  /** The labels of the ten price bands, lowest band first. */
  const Labels: seq<string> := [
    "0 - 100", "101 - 200", "201 - 300", "301 - 400", "401 - 500",
    "501 - 600", "601 - 700", "701 - 800", "801 - 900", "901-above"
  ]

  lemma LabelsDistinct()
    ensures |Labels| == 10 && Distinct(Labels)
  {
  }

  /**
   * The `CASE` expression, its `WHEN`s tried in order; a price that no `WHEN`
   * matches (a negative one) gets NULL.
   */
  function PriceRange(price: real): (bucket: Option<string>)
    ensures bucket.Some? <==> price >= 0.0
    ensures bucket.Some? ==> bucket.value in Labels
  {
    if price >= 0.0 && price <= 100.0 then Some("0 - 100")
    else if price > 100.0 && price <= 200.0 then Some("101 - 200")
    else if price > 200.0 && price <= 300.0 then Some("201 - 300")
    else if price > 300.0 && price <= 400.0 then Some("301 - 400")
    else if price > 400.0 && price <= 500.0 then Some("401 - 500")
    else if price > 500.0 && price <= 600.0 then Some("501 - 600")
    else if price > 600.0 && price <= 700.0 then Some("601 - 700")
    else if price > 700.0 && price <= 800.0 then Some("701 - 800")
    else if price > 800.0 && price <= 900.0 then Some("801 - 900")
    else if price > 900.0 then Some("901-above")
    else None
  }

  /**
   * Band `i` as an interval: [0, 100] for the first, (100 i, 100 (i + 1)]
   * for the eight middle ones and (900, ∞) for the last.
   */
  predicate InBand(price: real, i: int) {
    if i == 0 then 0.0 <= price <= 100.0
    else if 1 <= i <= 8 then (100 * i) as real < price <= (100 * (i + 1)) as real
    else i == 9 && price > 900.0
  }

  /** The `CASE` gives the i-th label exactly to the prices of band i. */
  lemma PriceRangeIsBand(price: real, i: int)
    requires 0 <= i < |Labels|
    ensures PriceRange(price) == Some(Labels[i]) <==> InBand(price, i)
  {
    LabelsDistinct();
  }

  /**
   * The bands cover every non-negative price and no negative one, and never
   * overlap: upper bounds are inclusive, lower bounds exclusive.
   */
  lemma BandsPartition(price: real)
    ensures (exists i :: 0 <= i < |Labels| && InBand(price, i)) <==> price >= 0.0
    ensures forall i, j :: InBand(price, i) && InBand(price, j) ==> i == j
  {
    if price >= 0.0 {
      var name := PriceRange(price).value;
      var i :| 0 <= i < |Labels| && Labels[i] == name;
      PriceRangeIsBand(price, i);
    }
  }

  /** The edges of the bands: 100 is in the first, 900 in the ninth, anything above 900 in the last. */
  lemma BandEdges()
    ensures PriceRange(0.0) == Some("0 - 100") && PriceRange(100.0) == Some("0 - 100")
    ensures PriceRange(100.5) == Some("101 - 200") && PriceRange(900.0) == Some("801 - 900")
    ensures PriceRange(900.01) == Some("901-above") && PriceRange(-0.01) == None
  {
  }

  /** The computed `priceRange` column of the selected rows. */
  function PriceRanges(ms: seq<Record>): seq<Option<string>> {
    seq(|ms|, i requires 0 <= i < |ms| => PriceRange(ms[i].price))
  }

  /** How many of the rows have a price in band `i`. */
  function CountInBand(ms: seq<Record>, i: int): nat {
    if ms == [] then 0 else (if InBand(ms[0].price, i) then 1 else 0) + CountInBand(ms[1..], i)
  }

  /** The rows that get the i-th label are those whose price lies in band i. */
  lemma {:induction false} OccurrencesOfLabel(ms: seq<Record>, i: int)
    requires 0 <= i < |Labels|
    ensures Occurrences(PriceRanges(ms), Some(Labels[i])) == CountInBand(ms, i)
  {
    if ms != [] {
      OccurrencesOfLabel(ms[1..], i);
      PriceRangeIsBand(ms[0].price, i);
      assert PriceRanges(ms)[1..] == PriceRanges(ms[1..]);
    }
  }

  /** One bar of the chart (`result.map(...)` copies the two columns). */
  datatype BarEntry = BarEntry(priceRange: Option<string>, itemCount: nat)

  function ToBarEntries(rows: seq<Row<Option<string>>>): seq<BarEntry> {
    seq(|rows|, i requires 0 <= i < |rows| => BarEntry(rows[i].key, rows[i].count))
  }

  function RangesOf(d: seq<BarEntry>): seq<Option<string>> {
    seq(|d|, i requires 0 <= i < |d| => d[i].priceRange)
  }

  /** The `itemCount` column of the bars. */
  function ItemCounts(d: seq<BarEntry>): seq<nat> {
    seq(|d|, i requires 0 <= i < |d| => d[i].itemCount)
  }

  /** The grouped query for month key `key`, mapped to bars. */
  function BarChartData(rs: seq<Record>, key: string): (d: seq<BarEntry>)
    requires WellFormed(rs)
    ensures Distinct(RangesOf(d))
    ensures forall e :: e in d ==> e.itemCount >= 1 && (e.priceRange.None? || e.priceRange.value in Labels)
    ensures Sum(ItemCounts(d)) == |QueryByMonth(rs, key, None)|
  {
    var column := PriceRanges(QueryByMonth(rs, key, None));
    var rows := GroupCount(column);
    TotalIsSumOfCounts(rows);
    assert ItemCounts(ToBarEntries(rows)) == Counts(rows);
    assert RangesOf(ToBarEntries(rows)) == Keys(rows);
    assert forall k :: k in column ==> k.None? || k.value in Labels;
    ToBarEntries(rows)
  }

  /**
   * The bar of band `i` is present exactly when some row of the month has a
   * price in that band, and it counts those rows.
   */
  lemma BarChartCountsBand(rs: seq<Record>, key: string, i: int)
    requires WellFormed(rs) && 0 <= i < |Labels|
    ensures Some(Labels[i]) in RangesOf(BarChartData(rs, key)) <==> CountInBand(QueryByMonth(rs, key, None), i) > 0
    ensures forall e :: e in BarChartData(rs, key) && e.priceRange == Some(Labels[i]) ==>
      e.itemCount == CountInBand(QueryByMonth(rs, key, None), i)
  {
    var column := PriceRanges(QueryByMonth(rs, key, None));
    var rows := GroupCount(column);
    OccurrencesOfLabel(QueryByMonth(rs, key, None), i);
    assert RangesOf(ToBarEntries(rows)) == Keys(rows);
    forall e | e in BarChartData(rs, key) && e.priceRange == Some(Labels[i])
      ensures e.itemCount == CountInBand(QueryByMonth(rs, key, None), i)
    {
      var j :| 0 <= j < |rows| && ToBarEntries(rows)[j] == e;
    }
  }

  /** Bars with distinct labels are at most as many as the labels. */
  lemma LabelledBarsAtMostTen(d: seq<BarEntry>)
    requires Distinct(RangesOf(d))
    requires forall e :: e in d ==> e.priceRange.Some? && e.priceRange.value in Labels
    ensures |d| <= |Labels|
  {
    var labelled := seq(|d|, j requires 0 <= j < |d| => d[j].priceRange.value);
    forall j, k | 0 <= j < k < |labelled| ensures labelled[j] != labelled[k] {
      assert d[j] in d && d[k] in d;
      assert RangesOf(d)[j] != RangesOf(d)[k];
    }
    forall x | x in labelled ensures x in Labels {
      var j :| 0 <= j < |labelled| && labelled[j] == x;
      assert d[j] in d;
    }
    DistinctWithin(labelled, Labels);
  }

  /**
   * When no price of the month is negative every bar carries a label, so
   * there are at most ten bars.
   */
  lemma BarChartOfNonNegativePrices(rs: seq<Record>, key: string)
    requires WellFormed(rs)
    requires forall r :: r in QueryByMonth(rs, key, None) ==> r.price >= 0.0
    ensures forall e :: e in BarChartData(rs, key) ==> e.priceRange.Some?
    ensures |BarChartData(rs, key)| <= |Labels|
  {
    var ms := QueryByMonth(rs, key, None);
    var column := PriceRanges(ms);
    assert None !in column;
    var rows := GroupCount(column);
    var d := ToBarEntries(rows);
    assert d == BarChartData(rs, key);
    forall e | e in d ensures e.priceRange.Some? {
      var j :| 0 <= j < |d| && d[j] == e;
      assert Keys(rows)[j] == e.priceRange;
    }
    LabelledBarsAtMostTen(d);
  }

  /** The bar-chart handler: the month gate, then the grouped query for its key. */
  function BarChartFor(rs: seq<Record>, month: Months.QueryParam): (r: Result<seq<BarEntry>, Error>)
    requires WellFormed(rs)
    ensures Months.ValidateMonth(month).Err? ==> r == Err(InvalidMonth)
    ensures forall i :: 0 <= i < |Months.ValidMonths| && month == Months.Single(Months.ValidMonths[i]) ==>
      r == Ok(BarChartData(rs, Months.MonthNumber(Months.ValidMonths[i])))
  {
    match Months.ValidateMonth(month)
    case Err(e) => Err(e)
    case Ok(name) => Ok(BarChartData(rs, Months.MonthNumber(name)))
  }

  /** Moving sales to other years leaves the chart as it is. */
  lemma BarChartIgnoresYear(rs: seq<Record>, rs': seq<Record>, key: string)
    requires WellFormed(rs) && WellFormed(rs') && PairwiseSameButYear(rs, rs')
    ensures BarChartData(rs, key) == BarChartData(rs', key)
  {
    FilterIgnoresYear(rs, rs', key, None);
    var ms, ms' := QueryByMonth(rs, key, None), QueryByMonth(rs', key, None);
    assert PriceRanges(ms) == PriceRanges(ms') by {
      forall j | 0 <= j < |ms| ensures ms[j].price == ms'[j].price {
        assert SameButYear(ms[j], ms'[j]);
      }
    }
  }
}
