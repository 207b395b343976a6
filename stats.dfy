/** Population mean and standard deviation of one column, as pandas'
    `series.mean()` and `series.std(ddof=0)` compute them: over the
    non-missing entries, dividing by their count. The square root is a
    parameter (see IsRoot). */
module Stats {
  import opened Wrappers
  import opened Frame

  /** The non-missing entries of `col` over `rows`, in row order. */
  function Values(rows: seq<Row>, col: string): seq<real> {
    if rows == [] then []
    else
      var front := Values(rows[..|rows| - 1], col);
      match Get(rows[|rows| - 1], col, Missing)
      case Num(x) => front + [x]
      case Missing => front
  }

  /** Each entry comes from some row's numeric cell, and every numeric cell
      of the column contributes an entry. */
  lemma {:induction false} ValuesSpec(rows: seq<Row>, col: string)
    ensures |Values(rows, col)| <= |rows|
    ensures forall x :: x in Values(rows, col) <==> exists r :: r in rows && Get(r, col, Missing) == Num(x)
    decreases |rows|
  {
    if rows != [] {
      var front := rows[..|rows| - 1];
      ValuesSpec(front, col);
      assert forall r :: r in rows <==> r in front || r == rows[|rows| - 1];
    }
  }

  /** The entries of a concatenation of row lists are those of the parts, in
      order, so every row's cell counts once, repeated values included. */
  lemma {:induction false} ValuesAppend(a: seq<Row>, b: seq<Row>, col: string)
    ensures Values(a + b, col) == Values(a, col) + Values(b, col)
    decreases |b|
  {
    if b == [] {
      assert a + b == a;
    } else {
      var b' := b[..|b| - 1];
      assert (a + b)[..|a + b| - 1] == a + b';
      assert (a + b)[|a + b| - 1] == b[|b| - 1];
      ValuesAppend(a, b', col);
    }
  }

  /** One row contributes its cell when it is a number, and nothing when the
      cell is missing or the row lacks the column. */
  lemma ValuesOfOneRow(r: Row, col: string)
    ensures Values([r], col) == if Get(r, col, Missing).Num? then [Get(r, col, Missing).value] else []
  {
    assert [r][..0] == [];
  }

  function Sum(xs: seq<real>): real {
    if xs == [] then 0.0 else Sum(xs[..|xs| - 1]) + xs[|xs| - 1]
  }

  function Mean(xs: seq<real>): (m: real)
    requires |xs| > 0
    ensures m * |xs| as real == Sum(xs)
  {
    Sum(xs) / |xs| as real
  }

  function Square(d: real): real {
    d * d
  }

  /** Sum of squared deviations from `m`. */
  function SumSq(xs: seq<real>, m: real): (s: real)
    ensures s >= 0.0
  {
    if xs == [] then 0.0
    else
      SquareNonNegative(xs[|xs| - 1] - m);
      SumSq(xs[..|xs| - 1], m) + Square(xs[|xs| - 1] - m)
  }

  /** `series.mean()`: NaN (here `None`) when no entry is present. */
  function SeriesMean(xs: seq<real>): (mu: Option<real>)
    ensures mu.Some? <==> |xs| > 0
  {
    if |xs| == 0 then None else Some(Mean(xs))
  }

  /** `series.std(ddof=0)`: NaN (here `None`) when no entry is present. */
  function SeriesStd(xs: seq<real>, root: real -> real): (sd: Option<real>)
    ensures sd.Some? <==> |xs| > 0
    ensures IsRoot(root) && sd.Some? ==> sd.value >= 0.0
    ensures IsRoot(root) && sd.Some? ==> (sd.value == 0.0 <==> AllEqual(xs))
  {
    if |xs| == 0 then None
    else
      VarianceZeroIff(xs);
      Some(root(Variance(xs)))
  }

  /** The population (biased, ddof = 0) variance. */
  function Variance(xs: seq<real>): (v: real)
    requires |xs| > 0
    ensures v >= 0.0
  {
    SumSq(xs, Mean(xs)) / |xs| as real
  }

  /** The square root the dashboard takes of the variance: only the facts
      the z-score policy relies on, that it is 0 at 0 and positive beyond. */
  ghost predicate IsRoot(root: real -> real) {
    root(0.0) == 0.0 && forall x :: x > 0.0 ==> root(x) > 0.0
  }

  ghost predicate AllEqual(xs: seq<real>) {
    forall i, j :: 0 <= i < |xs| && 0 <= j < |xs| ==> xs[i] == xs[j]
  }

  lemma SquareNonNegative(d: real)
    ensures Square(d) >= 0.0
  {
  }

  /** Only 0 squares to 0. */
  lemma SquareNonZero(d: real)
    requires d != 0.0
    ensures Square(d) != 0.0
  {
    if d > 0.0 {
      ProductPositive(d, d, Square(d));
    } else {
      ProductPositive(-d, -d, Square(d));
    }
  }

  lemma ProductPositive(a: real, b: real, p: real)
    requires a > 0.0 && b > 0.0 && p == a * b
    ensures p > 0.0
  {
  }

  /** The sum of squared deviations vanishes exactly when every entry is `m`. */
  lemma {:induction false} SumSqZero(xs: seq<real>, m: real)
    ensures SumSq(xs, m) == 0.0 <==> forall i :: 0 <= i < |xs| ==> xs[i] == m
    decreases |xs|
  {
    if xs != [] {
      var front := xs[..|xs| - 1];
      var d := xs[|xs| - 1] - m;
      SumSqZero(front, m);
      SquareNonNegative(d);
      if d != 0.0 {
        SquareNonZero(d);
      }
      assert forall i :: 0 <= i < |front| ==> front[i] == xs[i];
    }
  }

  /** Summing `|xs|` copies of `c` gives `|xs| * c`. */
  lemma {:induction false} SumConstant(xs: seq<real>, c: real)
    requires forall i :: 0 <= i < |xs| ==> xs[i] == c
    ensures Sum(xs) == |xs| as real * c
    decreases |xs|
  {
    if xs != [] {
      SumConstant(xs[..|xs| - 1], c);
    }
  }

  /** The variance is 0 exactly when all entries are equal; in particular
      for a single entry. */
  lemma VarianceZeroIff(xs: seq<real>)
    requires |xs| > 0
    ensures Variance(xs) == 0.0 <==> AllEqual(xs)
  {
    var n := |xs| as real;
    if AllEqual(xs) {
      SumConstant(xs, xs[0]);
      assert Mean(xs) == n * xs[0] / n == xs[0];
      SumSqZero(xs, xs[0]);
    }
    SumSqZero(xs, Mean(xs));
    if Variance(xs) == 0.0 {
      assert SumSq(xs, Mean(xs)) == Variance(xs) * n;
    }
  }
}
