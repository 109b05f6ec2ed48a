/**
 * The `products` table as the analytics queries read it, and their common
 * row filter `WHERE strftime('%m', dateOfSale) = ?`, optionally narrowed by
 * `AND sold = 1` or `AND sold = 0`.
 */
module Products {
  import opened Wrappers
  import Months

  /** One transaction row; title, description and image are never read by an aggregate. */
  datatype Record = Record(id: int, price: real, category: string, sold: bool, dateOfSale: string)

  predicate IsLeapYear(y: int) {
    y % 4 == 0 && (y % 100 != 0 || y % 400 == 0)
  }

  function DaysInMonth(y: int, m: int): int
    requires 1 <= m <= 12
  {
    if m == 2 then (if IsLeapYear(y) then 29 else 28)
    else if m == 4 || m == 6 || m == 9 || m == 11 then 30
    else 31
  }

  function Year(d: string): int
    requires |d| == 10
  {
    1000 * Months.DigitValue(d[0]) + 100 * Months.DigitValue(d[1])
      + 10 * Months.DigitValue(d[2]) + Months.DigitValue(d[3])
  }

  function Day(d: string): int
    requires |d| == 10
  {
    10 * Months.DigitValue(d[8]) + Months.DigitValue(d[9])
  }

  /** A calendar date written `YYYY-MM-DD`, the form whose month SQLite reads verbatim. */
  predicate IsoDate(d: string) {
    && |d| == 10
    && d[4] == '-' && d[7] == '-'
    && (forall i :: 0 <= i < 10 && i != 4 && i != 7 ==> Months.IsDigit(d[i]))
    && Months.IsMonthKey(d[5..7])
    && 1 <= Day(d) <= DaysInMonth(Year(d), Months.KeyValue(d[5..7]))
  }

  /** `strftime('%m', dateOfSale)` on a well-formed date: the two month digits. */
  function MonthOf(d: string): (m: string)
    requires IsoDate(d)
    ensures Months.IsMonthKey(m)
  {
    d[5..7]
  }

  /** Every stored sale date is well formed. */
  predicate WellFormed(rs: seq<Record>) {
    forall r :: r in rs ==> IsoDate(r.dateOfSale)
  }

  /** The WHERE clause: the month matches and, when asked, so does `sold`. */
  predicate Selected(r: Record, key: string, sold: Option<bool>)
    requires IsoDate(r.dateOfSale)
  {
    MonthOf(r.dateOfSale) == key && (sold.None? || r.sold == sold.value)
  }

  /** The rows a query over `products` aggregates, in table order. */
  function QueryByMonth(rs: seq<Record>, key: string, sold: Option<bool>): (ms: seq<Record>)
    requires WellFormed(rs)
    ensures WellFormed(ms) && |ms| <= |rs|
    ensures forall r :: r in ms <==> r in rs && Selected(r, key, sold)
  {
    if rs == [] then []
    else
      assert rs[0] in rs;
      var rest := QueryByMonth(rs[1..], key, sold);
      if Selected(rs[0], key, sold) then [rs[0]] + rest else rest
  }

  /** The query keeps every selected row as often as the table holds it, and no other row. */
  lemma {:induction false} QueryByMonthKeepsRows(rs: seq<Record>, key: string, sold: Option<bool>)
    requires WellFormed(rs)
    ensures forall r :: multiset(QueryByMonth(rs, key, sold))[r]
                     == if r in rs && Selected(r, key, sold) then multiset(rs)[r] else 0
  {
    if rs != [] {
      assert rs[0] in rs;
      assert WellFormed(rs[1..]);
      QueryByMonthKeepsRows(rs[1..], key, sold);
      var rest := QueryByMonth(rs[1..], key, sold);
      assert rs == [rs[0]] + rs[1..];
      forall r ensures multiset(QueryByMonth(rs, key, sold))[r]
                    == if r in rs && Selected(r, key, sold) then multiset(rs)[r] else 0
      {
        assert multiset(rs)[r] == multiset([rs[0]])[r] + multiset(rs[1..])[r];
        if Selected(rs[0], key, sold) {
          assert multiset(QueryByMonth(rs, key, sold))[r] == multiset([rs[0]])[r] + multiset(rest)[r];
        }
      }
    }
  }

  /** Every well-formed record falls in the month of exactly one accepted name. */
  lemma RecordInExactlyOneMonth(r: Record)
    requires IsoDate(r.dateOfSale)
    ensures exists i :: 0 <= i < |Months.ValidMonths| && MonthOf(r.dateOfSale) == Months.MonthNumber(Months.ValidMonths[i])
    ensures forall i, j ::
      && 0 <= i < |Months.ValidMonths| && 0 <= j < |Months.ValidMonths|
      && MonthOf(r.dateOfSale) == Months.MonthNumber(Months.ValidMonths[i])
      && MonthOf(r.dateOfSale) == Months.MonthNumber(Months.ValidMonths[j])
      ==> i == j
  {
    Months.MonthKeysAreExactlyTheTwelve(MonthOf(r.dateOfSale));
    forall i, j |
      && 0 <= i < |Months.ValidMonths| && 0 <= j < |Months.ValidMonths|
      && MonthOf(r.dateOfSale) == Months.MonthNumber(Months.ValidMonths[i])
      && MonthOf(r.dateOfSale) == Months.MonthNumber(Months.ValidMonths[j])
      ensures i == j
    {
      Months.MonthNumberIsPosition(i);
      Months.MonthNumberIsPosition(j);
    }
  }

  /** `a` and `b` are the same transaction except, at most, for the year of the sale. */
  predicate SameButYear(a: Record, b: Record) {
    && a.(dateOfSale := b.dateOfSale) == b
    && |a.dateOfSale| == |b.dateOfSale| >= 4
    && a.dateOfSale[4..] == b.dateOfSale[4..]
  }

  predicate PairwiseSameButYear(xs: seq<Record>, ys: seq<Record>) {
    |xs| == |ys| && forall i :: 0 <= i < |xs| ==> SameButYear(xs[i], ys[i])
  }

  lemma SelectedIgnoresYear(a: Record, b: Record, key: string, sold: Option<bool>)
    requires IsoDate(a.dateOfSale) && IsoDate(b.dateOfSale) && SameButYear(a, b)
    ensures Selected(a, key, sold) == Selected(b, key, sold)
  {
    var d, d' := a.dateOfSale, b.dateOfSale;
    assert d[5..7] == d[4..][1..3] == d'[4..][1..3] == d'[5..7];
    assert a.sold == b.sold;
  }

  lemma PairwiseCons(a: Record, b: Record, xs: seq<Record>, ys: seq<Record>)
    requires SameButYear(a, b) && PairwiseSameButYear(xs, ys)
    ensures PairwiseSameButYear([a] + xs, [b] + ys)
  {
    forall i | 0 <= i < |xs| + 1 ensures SameButYear(([a] + xs)[i], ([b] + ys)[i]) {
      if i > 0 {
        assert ([a] + xs)[i] == xs[i - 1] && ([b] + ys)[i] == ys[i - 1];
      }
    }
  }

  /**
   * The filter reads only the month digits, so moving sales to other years
   * selects the same transactions: years sharing a month are pooled.
   */
  lemma {:induction false} FilterIgnoresYear(rs: seq<Record>, rs': seq<Record>, key: string, sold: Option<bool>)
    requires WellFormed(rs) && WellFormed(rs') && PairwiseSameButYear(rs, rs')
    ensures PairwiseSameButYear(QueryByMonth(rs, key, sold), QueryByMonth(rs', key, sold))
  {
    if rs != [] {
      assert rs[0] in rs && rs'[0] in rs';
      SelectedIgnoresYear(rs[0], rs'[0], key, sold);
      assert WellFormed(rs[1..]) && WellFormed(rs'[1..]);
      assert PairwiseSameButYear(rs[1..], rs'[1..]) by {
        forall i | 0 <= i < |rs[1..]| ensures SameButYear(rs[1..][i], rs'[1..][i]) {
          assert SameButYear(rs[i + 1], rs'[i + 1]);
        }
      }
      FilterIgnoresYear(rs[1..], rs'[1..], key, sold);
      if Selected(rs[0], key, sold) {
        PairwiseCons(rs[0], rs'[0], QueryByMonth(rs[1..], key, sold), QueryByMonth(rs'[1..], key, sold));
      }
    }
  }
}
