/**
 * `GROUP BY <column>` with `COUNT(*)` over the rows a query selected: one
 * row per distinct value of the column, with the number of rows that have it.
 * Rows come out in order of first appearance; SQL promises no order, and
 * nothing stated about the result depends on it.
 */
module GroupBy {
  import opened Sequences

  datatype Row<K> = Row(key: K, count: nat)

  /** The grouped column's values, row by row. */
  function Keys<K>(rows: seq<Row<K>>): seq<K> {
    seq(|rows|, i requires 0 <= i < |rows| => rows[i].key)
  }

  /** The sum of the counts. */
  function Total<K>(rows: seq<Row<K>>): nat {
    if rows == [] then 0 else rows[0].count + Total(rows[1..])
  }

  /** The count column, row by row. */
  function Counts<K>(rows: seq<Row<K>>): seq<nat> {
    seq(|rows|, i requires 0 <= i < |rows| => rows[i].count)
  }

  /** The sum of a column of counts. */
  function Sum(xs: seq<nat>): nat {
    if xs == [] then 0 else xs[0] + Sum(xs[1..])
  }

  /** The total of the rows is the sum of their count column. */
  lemma {:induction false} TotalIsSumOfCounts<K>(rows: seq<Row<K>>)
    ensures Total(rows) == Sum(Counts(rows))
  {
    if rows != [] {
      assert Counts(rows)[1..] == Counts(rows[1..]);
      TotalIsSumOfCounts(rows[1..]);
    }
  }

  /**
   * `rows` is the grouped count of the column values `column`: each value
   * that occurs has exactly one row, no other row exists, every count is the
   * number of occurrences (so never 0), and the counts add up to the rows
   * grouped.
   */
  ghost predicate IsGrouping<K(!new)>(column: seq<K>, rows: seq<Row<K>>) {
    && Distinct(Keys(rows))
    && (forall k :: k in Keys(rows) <==> k in column)
    && (forall i :: 0 <= i < |rows| ==> rows[i].count == Occurrences(column, rows[i].key) && rows[i].count >= 1)
    && Total(rows) == |column|
  }

  /** The row of the column's first value, put before the grouping of the rest of the column without it. */
  function FirstThen<K(==)>(column: seq<K>, rest: seq<Row<K>>): seq<Row<K>>
    requires column != []
  {
    [Row(column[0], Occurrences(column, column[0]))] + rest
  }

  /** Grouping the column's first value, then the rest of the column without it, groups the column. */
  lemma GroupFirst<K(!new)>(column: seq<K>, rest: seq<Row<K>>)
    requires column != []
    requires IsGrouping(Without(column[1..], column[0]), rest)
    ensures IsGrouping(column, FirstThen(column, rest))
  {
    GroupFirstKeys(column, rest);
    GroupFirstCounts(column, rest);
    GroupFirstTotal(column, rest);
  }

  lemma GroupFirstKeys<K(!new)>(column: seq<K>, rest: seq<Row<K>>)
    requires column != []
    requires IsGrouping(Without(column[1..], column[0]), rest)
    ensures Distinct(Keys(FirstThen(column, rest)))
    ensures forall y :: y in Keys(FirstThen(column, rest)) <==> y in column
  {
    var k := column[0];
    assert Keys(FirstThen(column, rest)) == [k] + Keys(rest);
    assert k !in Keys(rest);
    assert column == [k] + column[1..];
    forall y ensures y in [k] + Keys(rest) <==> y in column {
      assert y in column <==> y == k || y in column[1..];
    }
  }

  lemma GroupFirstCounts<K(!new)>(column: seq<K>, rest: seq<Row<K>>)
    requires column != []
    requires IsGrouping(Without(column[1..], column[0]), rest)
    ensures forall i :: 0 <= i < |FirstThen(column, rest)| ==>
      FirstThen(column, rest)[i].count == Occurrences(column, FirstThen(column, rest)[i].key) &&
      FirstThen(column, rest)[i].count >= 1
  {
    var k := column[0];
    var rows := FirstThen(column, rest);
    assert k in column;
    forall i | 0 <= i < |rows| ensures rows[i].count == Occurrences(column, rows[i].key) && rows[i].count >= 1 {
      if i > 0 {
        var y := rest[i - 1].key;
        assert rows[i] == rest[i - 1];
        assert y in Keys(rest);
        assert Occurrences(Without(column[1..], k), y) == Occurrences(column[1..], y);
      }
    }
  }

  lemma GroupFirstTotal<K(!new)>(column: seq<K>, rest: seq<Row<K>>)
    requires column != []
    requires IsGrouping(Without(column[1..], column[0]), rest)
    ensures Total(FirstThen(column, rest)) == |column|
  {
    var k := column[0];
    var rows := FirstThen(column, rest);
    assert rows[1..] == rest;
    assert Occurrences(column, k) == 1 + Occurrences(column[1..], k);
    assert |Without(column[1..], k)| + Occurrences(column[1..], k) == |column| - 1;
  }

  /** `GROUP BY` with `COUNT(*)` over the column values `column`. */
  function GroupCount<K(==,!new)>(column: seq<K>): (rows: seq<Row<K>>)
    decreases |column|
    ensures IsGrouping(column, rows)
  {
    if column == [] then []
    else
      var rest := GroupCount(Without(column[1..], column[0]));
      GroupFirst(column, rest);
      FirstThen(column, rest)
  }

  /** Grouping two different values gives one row for each, in order. */
  lemma GroupCountOfTwo<K(!new)>(x: K, y: K)
    requires x != y
    ensures GroupCount([x, y]) == [Row(x, 1), Row(y, 1)]
  {
    var column := [x, y];
    assert column[1..] == [y] && [y][1..] == [];
    assert Occurrences(column, x) == 1;
    assert Without([y], x) == [y];
    assert Without([y], x)[1..] == [];
    assert Without([], y) == [];
    assert GroupCount([y]) == [Row(y, 1)];
  }
}
