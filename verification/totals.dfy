/** Sums over finite maps: what "total over all wallets" means. */
module Totals {

  ghost function Sum(m: map<string, int>): int
    decreases |m|
  {
    if m == map[] then 0
    else
      var k :| k in m;
      m[k] + Sum(m - {k})
  }

  /** Any key may be taken out first. */
  lemma {:induction false} SumRemove(m: map<string, int>, k: string)
    requires k in m
    ensures Sum(m) == m[k] + Sum(m - {k})
    decreases |m|
  {
    var first :| first in m && Sum(m) == m[first] + Sum(m - {first});
    if first != k {
      SumRemove(m - {first}, k);
      SumRemove(m - {k}, first);
      assert m - {first} - {k} == m - {k} - {first};
    }
  }

  lemma SumUpdate(m: map<string, int>, k: string, v: int)
    requires k in m
    ensures Sum(m[k := v]) == Sum(m) - m[k] + v
  {
    SumRemove(m, k);
    SumRemove(m[k := v], k);
    assert m[k := v] - {k} == m - {k};
  }

  lemma {:induction false} SumOfZeros(m: map<string, int>)
    requires forall k | k in m :: m[k] == 0
    ensures Sum(m) == 0
    decreases |m|
  {
    if m != map[] {
      var k :| k in m;
      SumRemove(m, k);
      SumOfZeros(m - {k});
    }
  }

  predicate NonNegative(m: map<string, int>) {
    forall k | k in m :: m[k] >= 0
  }

  /** In a map of non-negative numbers nobody holds more than the total. */
  lemma {:induction false} SumDominates(m: map<string, int>)
    requires NonNegative(m)
    ensures Sum(m) >= 0 && forall k | k in m :: m[k] <= Sum(m)
    decreases |m|
  {
    forall k | k in m ensures m[k] <= Sum(m) {
      SumRemove(m, k);
      SumDominates(m - {k});
    }
    if m != map[] {
      var k :| k in m;
      assert 0 <= m[k] <= Sum(m);
    }
  }

  /** The sum of one real-valued column over a table. */
  ghost function SumBy<T>(rows: seq<T>, column: T -> real): real {
    if rows == [] then 0.0
    else SumBy(rows[..|rows| - 1], column) + column(rows[|rows| - 1])
  }

  lemma SumByAppend<T>(rows: seq<T>, x: T, column: T -> real)
    ensures SumBy(rows + [x], column) == SumBy(rows, column) + column(x)
  {}

  lemma {:induction false} SumByReplace<T>(rows: seq<T>, i: nat, x: T, column: T -> real)
    requires i < |rows|
    ensures SumBy(rows[i := x], column) == SumBy(rows, column) - column(rows[i]) + column(x)
  {
    var last := |rows| - 1;
    if i == last {
      assert rows[i := x][..last] == rows[..last];
    } else {
      SumByReplace(rows[..last], i, x, column);
      assert rows[i := x][..last] == rows[..last][i := x];
    }
  }

  lemma {:induction false} SumByZero<T>(rows: seq<T>, column: T -> real)
    requires forall x | x in rows :: column(x) == 0.0
    ensures SumBy(rows, column) == 0.0
  {
    if rows != [] {
      assert rows[|rows| - 1] in rows;
      SumByZero(rows[..|rows| - 1], column);
    }
  }

  /** n times x. */
  function Times(n: nat, x: real): real {
    if n == 0 then 0.0 else Times(n - 1, x) + x
  }

  lemma {:induction false} TimesIsProduct(n: nat, x: real)
    ensures Times(n, x) == n as real * x
  {
    if n > 0 {
      TimesIsProduct(n - 1, x);
      assert n as real * x == (n - 1) as real * x + x;
    }
  }

  lemma {:induction false} TimesMonotone(m: nat, n: nat, x: real)
    requires m <= n && x > 0.0
    ensures 0.0 <= Times(m, x) <= Times(n, x)
    ensures n >= 1 ==> Times(n, x) > 0.0
    decreases n
  {
    if m < n {
      TimesMonotone(m, n - 1, x);
    } else if n > 0 {
      TimesMonotone(m - 1, n - 1, x);
    }
  }
}
