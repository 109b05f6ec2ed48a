/** Facts about sequences that the month table and the GROUP BY share. */
module Sequences {
  /** No element occurs twice. */
  predicate Distinct<T(==)>(s: seq<T>) {
    forall i, j :: 0 <= i < j < |s| ==> s[i] != s[j]
  }

  /** How many times `x` occurs in `s`. */
  function Occurrences<T(==)>(s: seq<T>, x: T): (n: nat)
    ensures n <= |s|
    ensures n > 0 <==> x in s
  {
    if s == [] then 0 else (if s[0] == x then 1 else 0) + Occurrences(s[1..], x)
  }

  /** `s` with every occurrence of `x` removed, the rest in order. */
  function Without<T(==,!new)>(s: seq<T>, x: T): (r: seq<T>)
    ensures forall y :: y in r <==> y in s && y != x
    ensures |r| + Occurrences(s, x) == |s|
    ensures forall y :: y != x ==> Occurrences(r, y) == Occurrences(s, y)
  {
    if s == [] then []
    else if s[0] == x then Without(s[1..], x)
    else [s[0]] + Without(s[1..], x)
  }

  /** A duplicate-free sequence drawn from `ys` is no longer than `ys`. */
  lemma {:induction false} DistinctWithin<T(!new)>(xs: seq<T>, ys: seq<T>)
    requires Distinct(xs)
    requires forall x :: x in xs ==> x in ys
    ensures |xs| <= |ys|
    decreases |xs|
  {
    if xs != [] {
      var ys' := Without(ys, xs[0]);
      forall x | x in xs[1..] ensures x in ys' {
        var i :| 1 <= i < |xs| && xs[i] == x;
        assert xs[0] != xs[i];
      }
      DistinctWithin(xs[1..], ys');
    }
  }
}
