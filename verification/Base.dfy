/** Shared vocabulary: options, sums over a table, sizes of sets. */
module Base {

  datatype Option<+T> = None | Some(value: T)

  /** The sum of `f` over the rows of a table. */
  function Sum<T>(rows: seq<T>, f: T -> int): int {
    if rows == [] then 0 else Sum(rows[..|rows| - 1], f) + f(rows[|rows| - 1])
  }

  lemma SumAppend<T>(rows: seq<T>, x: T, f: T -> int)
    ensures Sum(rows + [x], f) == Sum(rows, f) + f(x)
  {
    assert (rows + [x])[..|rows|] == rows;
  }

  lemma {:induction false} SumUpdate<T>(rows: seq<T>, i: nat, x: T, f: T -> int)
    requires i < |rows|
    ensures Sum(rows[i := x], f) == Sum(rows, f) - f(rows[i]) + f(x)
    decreases |rows|
  {
    var n := |rows| - 1;
    if i == n {
      assert rows[i := x][..n] == rows[..n];
    } else {
      SumUpdate(rows[..n], i, x, f);
      assert rows[i := x][..n] == rows[..n][i := x];
    }
  }

  lemma Larger<T>(a: set<T>, b: set<T>)
    requires a <= b
    ensures |a| <= |b|
  {
    assert b == a + (b - a);
  }

  /** A set that maps one-to-one into another is no larger. */
  lemma {:induction false} Injects<T>(a: set<T>, b: set<T>, f: map<T, T>)
    requires a <= f.Keys
    requires forall x | x in a :: f[x] in b
    requires forall x, y | x in a && y in a && f[x] == f[y] :: x == y
    ensures |a| <= |b|
    decreases |a|
  {
    if x :| x in a {
      Injects(a - {x}, b - {f[x]}, f);
    } else {
      assert a == {};
    }
  }
}
