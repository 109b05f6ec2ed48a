/**
 * GET /pie-chart: the month's rows counted per category with
 * `GROUP BY category`, categories compared as exact strings.
 */
module PieChart {
  import opened Wrappers
  import opened Errors
  import opened Sequences
  import Months
  import opened Products
  import opened GroupBy

  /** The `category` column of the selected rows. */
  function Categories(ms: seq<Record>): seq<string> {
    seq(|ms|, i requires 0 <= i < |ms| => ms[i].category)
  }

  /** How many of the rows have exactly the category `c`. */
  function CountCategory(ms: seq<Record>, c: string): nat {
    if ms == [] then 0 else (if ms[0].category == c then 1 else 0) + CountCategory(ms[1..], c)
  }

  lemma {:induction false} OccurrencesOfCategory(ms: seq<Record>, c: string)
    ensures Occurrences(Categories(ms), c) == CountCategory(ms, c)
  {
    if ms != [] {
      assert Categories(ms)[1..] == Categories(ms[1..]);
      OccurrencesOfCategory(ms[1..], c);
    }
  }

  /** One slice of the chart (`result.map(...)` copies the two columns). */
  datatype PieEntry = PieEntry(category: string, itemCount: nat)

  function ToPieEntries(rows: seq<Row<string>>): seq<PieEntry> {
    seq(|rows|, i requires 0 <= i < |rows| => PieEntry(rows[i].key, rows[i].count))
  }

  function CategoriesOf(d: seq<PieEntry>): seq<string> {
    seq(|d|, i requires 0 <= i < |d| => d[i].category)
  }

  /** The `itemCount` column of the slices. */
  function ItemCounts(d: seq<PieEntry>): seq<nat> {
    seq(|d|, i requires 0 <= i < |d| => d[i].itemCount)
  }

  /**
   * The grouped query for month key `key`, mapped to slices: one slice per
   * category that occurs in the month, counting the rows of that category,
   * so the slices partition the month's rows.
   */
  function PieChartData(rs: seq<Record>, key: string): (d: seq<PieEntry>)
    requires WellFormed(rs)
    ensures Distinct(CategoriesOf(d))
    ensures forall c :: c in CategoriesOf(d) <==> CountCategory(QueryByMonth(rs, key, None), c) > 0
    ensures forall e :: e in d ==> e.itemCount == CountCategory(QueryByMonth(rs, key, None), e.category) >= 1
    ensures Sum(ItemCounts(d)) == |QueryByMonth(rs, key, None)|
  {
    var ms := QueryByMonth(rs, key, None);
    var rows := GroupCount(Categories(ms));
    TotalIsSumOfCounts(rows);
    assert ItemCounts(ToPieEntries(rows)) == Counts(rows);
    assert CategoriesOf(ToPieEntries(rows)) == Keys(rows);
    CountsAreOccurrences(ms);
    ToPieEntries(rows)
  }

  lemma CountsAreOccurrences(ms: seq<Record>)
    ensures forall c :: Occurrences(Categories(ms), c) == CountCategory(ms, c)
  {
    forall c ensures Occurrences(Categories(ms), c) == CountCategory(ms, c) {
      OccurrencesOfCategory(ms, c);
    }
  }

  /** The pie-chart handler: the month gate, then the grouped query for its key. */
  function PieChartFor(rs: seq<Record>, month: Months.QueryParam): (r: Result<seq<PieEntry>, Error>)
    requires WellFormed(rs)
    ensures Months.ValidateMonth(month).Err? ==> r == Err(InvalidMonth)
    ensures forall i :: 0 <= i < |Months.ValidMonths| && month == Months.Single(Months.ValidMonths[i]) ==>
      r == Ok(PieChartData(rs, Months.MonthNumber(Months.ValidMonths[i])))
  {
    match Months.ValidateMonth(month)
    case Err(e) => Err(e)
    case Ok(name) => Ok(PieChartData(rs, Months.MonthNumber(name)))
  }

  /** Moving sales to other years leaves the chart as it is. */
  lemma PieChartIgnoresYear(rs: seq<Record>, rs': seq<Record>, key: string)
    requires WellFormed(rs) && WellFormed(rs') && PairwiseSameButYear(rs, rs')
    ensures PieChartData(rs, key) == PieChartData(rs', key)
  {
    FilterIgnoresYear(rs, rs', key, None);
    var ms, ms' := QueryByMonth(rs, key, None), QueryByMonth(rs', key, None);
    assert Categories(ms) == Categories(ms') by {
      forall j | 0 <= j < |ms| ensures ms[j].category == ms'[j].category {
        assert SameButYear(ms[j], ms'[j]);
      }
    }
    assert PieChartData(rs, key) == ToPieEntries(GroupCount(Categories(ms)));
    assert PieChartData(rs', key) == ToPieEntries(GroupCount(Categories(ms')));
  }
}
