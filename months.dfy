/**
 * The month gate and the month key: the twelve accepted month names, the
 * validation of the `month` query parameter, and the two-digit month number
 * `(validMonths.indexOf(month) + 1).toString().padStart(2, "0")`.
 */
module Months {
  import opened Wrappers
  import opened Errors
  import opened Sequences

  /** The accepted month names in calendar order (`validMonths`). */
  const ValidMonths: seq<string> := [
    "January", "February", "March", "April", "May", "June",
    "July", "August", "September", "October", "November", "December"
  ]

  lemma ValidMonthsDistinct()
    ensures |ValidMonths| == 12 && Distinct(ValidMonths)
  {
  }

  /**
   * The `month` query parameter as Express parses it: absent, a single
   * string, or an array when the parameter is repeated in the query string.
   */
  datatype QueryParam = Absent | Single(text: string) | Repeated(values: seq<string>)

  /** JavaScript truthiness: `undefined` and "" are falsy, any array is truthy. */
  predicate Truthy(p: QueryParam) {
    match p
    case Absent => false
    case Single(s) => s != ""
    case Repeated(_) => true
  }

  /** `validMonths.includes(month)`: strict equality, so an array is never included. */
  predicate Included(p: QueryParam) {
    p.Single? && p.text in ValidMonths
  }

  /** `validateMonth`: the 400 branch or `next()` with the accepted name. */
  function ValidateMonth(p: QueryParam): (r: Result<string, Error>)
    ensures r.Ok? <==> exists i :: 0 <= i < |ValidMonths| && p == Single(ValidMonths[i])
    ensures r.Ok? ==> p == Single(r.value) && r.value in ValidMonths
    ensures r.Err? ==> r.error == InvalidMonth
  {
    if !Truthy(p) || !Included(p) then Err(InvalidMonth) else Ok(p.text)
  }

  /** `Array.prototype.indexOf`: the first position of `x`, or -1. */
  function IndexOf<T(==)>(s: seq<T>, x: T): (i: int)
    ensures x in s ==> 0 <= i < |s| && s[i] == x && x !in s[..i]
    ensures x !in s ==> i == -1
  {
    if s == [] then -1
    else if s[0] == x then 0
    else
      var j := IndexOf(s[1..], x);
      if j < 0 then -1
      else
        assert s[..j + 1] == [s[0]] + s[1..][..j];
        j + 1
  }

  predicate IsDigit(c: char) {
    '0' <= c <= '9'
  }

  function DigitValue(c: char): (d: int)
    ensures IsDigit(c) ==> 0 <= d <= 9
  {
    c as int - '0' as int
  }

  function DigitChar(d: nat): (c: char)
    requires d < 10
    ensures IsDigit(c) && DigitValue(c) == d
  {
    ('0' as int + d) as char
  }

  /** The number a string of decimal digits denotes. */
  function DecimalValue(s: string): nat
    requires forall i :: 0 <= i < |s| ==> IsDigit(s[i])
  {
    if s == [] then 0 else 10 * DecimalValue(s[..|s| - 1]) + DigitValue(s[|s| - 1])
  }

  /** `Number.prototype.toString()` of a non-negative integer: its decimal digits, no leading zero. */
  function Decimal(n: nat): (s: string)
    ensures |s| >= 1 && forall i :: 0 <= i < |s| ==> IsDigit(s[i])
    ensures DecimalValue(s) == n
    ensures n > 0 ==> s[0] != '0'
    ensures n < 10 ==> |s| == 1
    ensures 10 <= n < 100 ==> |s| == 2
  {
    if n < 10 then [DigitChar(n)]
    else
      var s := Decimal(n / 10) + [DigitChar(n % 10)];
      assert s[..|s| - 1] == Decimal(n / 10);
      s
  }

  /** `String.prototype.padStart(width, fill)` with a one-character fill. */
  function PadStart(s: string, width: nat, fill: char): (r: string)
    ensures |r| == if |s| < width then width else |s|
    ensures r[|r| - |s|..] == s
    ensures forall i :: 0 <= i < |r| - |s| ==> r[i] == fill
  {
    if |s| < width then seq(width - |s|, _ => fill) + s else s
  }

  /** The value of a two-character month key. */
  function KeyValue(k: string): int
    requires |k| == 2
  {
    10 * DigitValue(k[0]) + DigitValue(k[1])
  }

  /** A month key as `strftime('%m', …)` produces it: two digits denoting 1 to 12. */
  predicate IsMonthKey(k: string) {
    |k| == 2 && IsDigit(k[0]) && IsDigit(k[1]) && 1 <= KeyValue(k) <= 12
  }

  /** Zero-padding the decimal form of a month number 1..12 gives a month key of that value. */
  lemma PaddedDecimalIsKey(n: nat)
    requires 1 <= n <= 12
    ensures IsMonthKey(PadStart(Decimal(n), 2, '0'))
    ensures KeyValue(PadStart(Decimal(n), 2, '0')) == n
  {
    var k := PadStart(Decimal(n), 2, '0');
    if n < 10 {
      assert Decimal(n) == [DigitChar(n)];
      assert k == ['0', DigitChar(n)];
    } else {
      assert Decimal(1) == [DigitChar(1)];
      assert Decimal(n) == [DigitChar(1), DigitChar(n % 10)];
      assert k == Decimal(n);
    }
    assert IsDigit(k[0]) && IsDigit(k[1]);
  }

  /** The month number of an accepted name, as each analytics handler computes it. */
  function MonthNumber(month: string): (key: string)
    requires month in ValidMonths
    ensures IsMonthKey(key)
    ensures KeyValue(key) == IndexOf(ValidMonths, month) + 1
  {
    PaddedDecimalIsKey(IndexOf(ValidMonths, month) + 1);
    PadStart(Decimal(IndexOf(ValidMonths, month) + 1), 2, '0')
  }

  /** Two month keys with the same value are the same string. */
  lemma KeyValueInjective(a: string, b: string)
    requires IsMonthKey(a) && IsMonthKey(b) && KeyValue(a) == KeyValue(b)
    ensures a == b
  {
    assert a[0] == b[0];
    assert a[1] == b[1];
  }

  /** The key of the i-th name is its 1-based position. */
  lemma {:induction false} MonthNumberIsPosition(i: int)
    requires 0 <= i < |ValidMonths|
    ensures KeyValue(MonthNumber(ValidMonths[i])) == i + 1
  {
    ValidMonthsDistinct();
  }

  /** Distinct accepted names give distinct keys. */
  lemma MonthNumberInjective(a: string, b: string)
    requires a in ValidMonths && b in ValidMonths && a != b
    ensures MonthNumber(a) != MonthNumber(b)
  {
  }

  /** The keys of the twelve names are exactly the strings "01" to "12". */
  lemma MonthKeysAreExactlyTheTwelve(k: string)
    ensures IsMonthKey(k) <==> exists i :: 0 <= i < |ValidMonths| && MonthNumber(ValidMonths[i]) == k
  {
    if IsMonthKey(k) {
      var i := KeyValue(k) - 1;
      MonthNumberIsPosition(i);
      KeyValueInjective(MonthNumber(ValidMonths[i]), k);
    }
  }
}
