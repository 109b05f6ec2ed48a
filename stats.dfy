/**
 * GET /statistics: the month's sale amount and its sold and not-sold counts,
 * three `SELECT`s over the month's rows, each NULL result read as 0.
 */
module Stats {
  import opened Wrappers
  import opened Errors
  import Months
  import opened Products

  datatype Statistics = Statistics(totalSaleAmount: real, totalSoldItems: nat, totalNotSoldItems: nat)

  /** The exact sum of `price` over the rows. */
  function TotalPrice(ms: seq<Record>): real {
    if ms == [] then 0.0 else ms[0].price + TotalPrice(ms[1..])
  }

  /** SQL `SUM(price)`: NULL when no row is selected. */
  function SqlSum(ms: seq<Record>): Option<real> {
    if ms == [] then None else Some(TotalPrice(ms))
  }

  /** JavaScript `value || 0` applied to a query result: NULL (and 0) become 0. */
  function OrZero(v: Option<real>): real {
    match v
    case None => 0.0
    case Some(x) => x
  }

  /**
   * The three statistics for month key `key`. `COUNT(*)` is never NULL, so
   * `|| 0` leaves the counts as they are.
   */
  function ComputeStatistics(rs: seq<Record>, key: string): (s: Statistics)
    requires WellFormed(rs)
    ensures s.totalSaleAmount == TotalPrice(QueryByMonth(rs, key, None))
    ensures s.totalSoldItems == CountWhere(rs, key, true)
    ensures s.totalNotSoldItems == CountWhere(rs, key, false)
    ensures s.totalSoldItems + s.totalNotSoldItems == |QueryByMonth(rs, key, None)|
    ensures s.totalSaleAmount
         == TotalPrice(QueryByMonth(rs, key, Some(true))) + TotalPrice(QueryByMonth(rs, key, Some(false)))
    ensures QueryByMonth(rs, key, None) == [] <==> s == Statistics(0.0, 0, 0)
  {
    SoldPartition(rs, key);
    CountWhereIsQuery(rs, key, true);
    CountWhereIsQuery(rs, key, false);
    Statistics(
      OrZero(SqlSum(QueryByMonth(rs, key, None))),
      |QueryByMonth(rs, key, Some(true))|,
      |QueryByMonth(rs, key, Some(false))|)
  }

  /** How many rows of the table have month key `key` and the `sold` flag `sold`, counted row by row. */
  function CountWhere(rs: seq<Record>, key: string, sold: bool): nat
    requires WellFormed(rs)
  {
    if rs == [] then 0
    else
      assert rs[0] in rs;
      (if MonthOf(rs[0].dateOfSale) == key && rs[0].sold == sold then 1 else 0) + CountWhere(rs[1..], key, sold)
  }

  /** `COUNT(*)` of the query narrowed by `sold = 1` (or `sold = 0`) counts exactly those rows. */
  lemma {:induction false} CountWhereIsQuery(rs: seq<Record>, key: string, sold: bool)
    requires WellFormed(rs)
    ensures |QueryByMonth(rs, key, Some(sold))| == CountWhere(rs, key, sold)
  {
    if rs != [] {
      assert rs[0] in rs;
      assert WellFormed(rs[1..]);
      CountWhereIsQuery(rs[1..], key, sold);
    }
  }

  /**
   * `sold = 1` and `sold = 0` split the month's rows in two: the counts add up
   * to the month's rows and the revenue, taken over all of them, is the sold
   * revenue plus the unsold one.
   */
  lemma {:induction false} SoldPartition(rs: seq<Record>, key: string)
    requires WellFormed(rs)
    ensures |QueryByMonth(rs, key, Some(true))| + |QueryByMonth(rs, key, Some(false))| == |QueryByMonth(rs, key, None)|
    ensures TotalPrice(QueryByMonth(rs, key, None))
         == TotalPrice(QueryByMonth(rs, key, Some(true))) + TotalPrice(QueryByMonth(rs, key, Some(false)))
  {
    if rs != [] {
      assert rs[0] in rs;
      assert WellFormed(rs[1..]);
      SoldPartition(rs[1..], key);
      var r := rs[0];
      var all, yes, no := QueryByMonth(rs[1..], key, None), QueryByMonth(rs[1..], key, Some(true)), QueryByMonth(rs[1..], key, Some(false));
      if Selected(r, key, None) {
        assert ([r] + all)[1..] == all;
        if r.sold {
          assert ([r] + yes)[1..] == yes;
        } else {
          assert ([r] + no)[1..] == no;
        }
      }
    }
  }

  /** The statistics handler: the month gate, then the three queries for its key. */
  function StatisticsFor(rs: seq<Record>, month: Months.QueryParam): (r: Result<Statistics, Error>)
    requires WellFormed(rs)
    ensures Months.ValidateMonth(month).Err? ==> r == Err(InvalidMonth)
    ensures forall i :: 0 <= i < |Months.ValidMonths| && month == Months.Single(Months.ValidMonths[i]) ==>
      r == Ok(ComputeStatistics(rs, Months.MonthNumber(Months.ValidMonths[i])))
  {
    match Months.ValidateMonth(month)
    case Err(e) => Err(e)
    case Ok(name) => Ok(ComputeStatistics(rs, Months.MonthNumber(name)))
  }

  lemma {:induction false} TotalPriceIgnoresYear(ms: seq<Record>, ms': seq<Record>)
    requires PairwiseSameButYear(ms, ms')
    ensures TotalPrice(ms) == TotalPrice(ms')
  {
    if ms != [] {
      assert SameButYear(ms[0], ms'[0]);
      assert PairwiseSameButYear(ms[1..], ms'[1..]) by {
        forall i | 0 <= i < |ms[1..]| ensures SameButYear(ms[1..][i], ms'[1..][i]) {
          assert SameButYear(ms[i + 1], ms'[i + 1]);
        }
      }
      TotalPriceIgnoresYear(ms[1..], ms'[1..]);
    }
  }

  /** Moving sales to other years changes no statistic: only the month digits are read. */
  lemma StatisticsIgnoreYear(rs: seq<Record>, rs': seq<Record>, key: string)
    requires WellFormed(rs) && WellFormed(rs') && PairwiseSameButYear(rs, rs')
    ensures ComputeStatistics(rs, key) == ComputeStatistics(rs', key)
  {
    FilterIgnoresYear(rs, rs', key, None);
    FilterIgnoresYear(rs, rs', key, Some(true));
    FilterIgnoresYear(rs, rs', key, Some(false));
    TotalPriceIgnoresYear(QueryByMonth(rs, key, None), QueryByMonth(rs', key, None));
  }

  lemma {:induction false} TotalPriceOfPermutation(a: seq<Record>, b: seq<Record>)
    requires multiset(a) == multiset(b)
    ensures TotalPrice(a) == TotalPrice(b)
    decreases |a|
  {
    if a != [] {
      assert a[0] in multiset(b);
      var j :| 0 <= j < |b| && b[j] == a[0];
      var rest := b[..j] + b[j + 1..];
      PermutationTail(a, b, j);
      TotalPriceOfPermutation(a[1..], rest);
      TotalPriceRemove(b, j);
    }
  }

  lemma PermutationTail(a: seq<Record>, b: seq<Record>, j: int)
    requires multiset(a) == multiset(b) && a != [] && 0 <= j < |b| && b[j] == a[0]
    ensures multiset(a[1..]) == multiset(b[..j] + b[j + 1..])
  {
    var rest := b[..j] + b[j + 1..];
    assert a == [a[0]] + a[1..];
    assert b == b[..j] + [b[j]] + b[j + 1..];
    assert multiset(b) == multiset(b[..j]) + multiset{b[j]} + multiset(b[j + 1..]);
    assert multiset(rest) == multiset(b[..j]) + multiset(b[j + 1..]);
    assert multiset(a) == multiset{a[0]} + multiset(a[1..]);
    assert multiset(b) == multiset{a[0]} + multiset(rest);
    forall r ensures multiset(a[1..])[r] == multiset(rest)[r] {
      assert multiset(a)[r] == multiset{a[0]}[r] + multiset(a[1..])[r];
      assert multiset(b)[r] == multiset{a[0]}[r] + multiset(rest)[r];
    }
  }

  lemma {:induction false} TotalPriceRemove(b: seq<Record>, j: int)
    requires 0 <= j < |b|
    ensures TotalPrice(b) == b[j].price + TotalPrice(b[..j] + b[j + 1..])
  {
    if j > 0 {
      TotalPriceRemove(b[1..], j - 1);
      assert b[1..][..j - 1] + b[1..][j..] == (b[..j] + b[j + 1..])[1..];
    } else {
      assert b[..j] + b[j + 1..] == b[1..];
    }
  }

  /** The statistics depend on the table's rows, not on their order. */
  lemma StatisticsIgnoreOrder(rs: seq<Record>, rs': seq<Record>, key: string)
    requires WellFormed(rs) && WellFormed(rs') && multiset(rs) == multiset(rs')
    ensures ComputeStatistics(rs, key) == ComputeStatistics(rs', key)
  {
    forall sold: Option<bool> ensures multiset(QueryByMonth(rs, key, sold)) == multiset(QueryByMonth(rs', key, sold)) {
      QueryByMonthKeepsRows(rs, key, sold);
      QueryByMonthKeepsRows(rs', key, sold);
      forall r ensures multiset(QueryByMonth(rs, key, sold))[r] == multiset(QueryByMonth(rs', key, sold))[r] {
        assert r in rs <==> r in rs' by {
          assert r in rs <==> r in multiset(rs);
          assert r in rs' <==> r in multiset(rs');
        }
      }
    }
    var all, all' := QueryByMonth(rs, key, None), QueryByMonth(rs', key, None);
    assert |QueryByMonth(rs, key, Some(true))| == |multiset(QueryByMonth(rs, key, Some(true)))|;
    assert |QueryByMonth(rs', key, Some(true))| == |multiset(QueryByMonth(rs', key, Some(true)))|;
    assert |QueryByMonth(rs, key, Some(false))| == |multiset(QueryByMonth(rs, key, Some(false)))|;
    assert |QueryByMonth(rs', key, Some(false))| == |multiset(QueryByMonth(rs', key, Some(false)))|;
    assert |all| == |multiset(all)| && |all'| == |multiset(all')|;
    TotalPriceOfPermutation(all, all');
  }
}
